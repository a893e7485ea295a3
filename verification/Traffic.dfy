/**
 * The codec of the newer bus over whole runs of bytes and calls, and how such a
 * run looks to the command lifecycle: every theorem about `Runs` is one about
 * the answers that cross the wire.
 */
module Traffic {
  import opened HcpTypes
  import opened HcpState
  import opened Lifecycle
  import opened Hcp2Frame
  import opened Hcp2Model
  import opened Replies
  import opened Runs

  datatype Act =
    | Frame(raw: seq<Byte>)
    | Call(input: Input)
    | Watchdog
    | Publish

  predicate IsCall(input: Input) {
    match input
    case Press(_, _) => true
    case GoTo(_) => true
    case StopPress => true
    case RequestPause => true
    case EndPause => true
    case DropQueued => true
    case _ => false
  }

  predicate Allowed(act: Act) {
    act.Call? ==> IsCall(act.input)
  }

  function After(m: Model, now: Millis, act: Act): (Model, seq<Byte>)
    requires Allowed(act)
  {
    match act
    case Frame(raw) => m.OnFrame(now, raw)
    case Call(input) => (m.(core := Next(m.core, now, input)), [])
    case Watchdog => (m.(core := m.core.CheckSilence(now)), [])
    case Publish => (m.PublishIdentity(), [])
  }

  /** A report whose registers are applied. */
  predicate Applies(raw: seq<Byte>) {
    && Accepted(raw) && raw[1] == 0x10 && Validate(raw) >= 7
    && Rd16(raw, 2) == REG_BCAST_BASE && ReportAgrees(raw)
  }

  /** What the command lifecycle sees of an act. */
  function Seen(m: Model, now: Millis, act: Act): Input
    requires Allowed(act)
  {
    match act
    case Frame(raw) =>
      if Answerable(raw) then
        Exchange(raw[11], raw[12], IsPoll(Rd16(raw, 4), Registers(raw, 11, Rd16(raw, 8))))
      else if Applies(raw) then Report(Registers(raw, 7, Rd16(raw, 4)))
      else Noise
    case Call(input) => input
    case Watchdog => CheckSilence(m.core.Gone(now))
    case Publish => Noise
  }

  /** The state the lifecycle meets it in: a frame that holds has been noted by then. */
  function Met(m: Model, now: Millis, act: Act): Core {
    if act.Frame? && Accepted(act.raw) then m.core.Heard(now) else m.core
  }

  /** Equal in everything that decides what is sent. */
  predicate Alike(c: Core, d: Core) {
    && c.caps == d.caps && c.bcast == d.bcast && c.gotoCheckPending == d.gotoCheckPending
    && c.slot == d.slot && c.watch == d.watch && c.receipt == d.receipt
    && c.pause.requested == d.pause.requested && c.stateWrites == d.stateWrites
    && c.door.target == d.door.target && c.door.current == d.door.current && c.door.goto == d.door.goto
    && c.door.lightOn == d.door.lightOn && c.door.relayOn == d.door.relayOn
    && c.door.actuatorError == d.door.actuatorError && c.door.state == d.door.state && c.door.valid == d.door.valid
  }

  lemma AlikeIsQuiet(c: Core, d: Core)
    requires Alike(c, d)
    ensures Quiet(c) == Quiet(d)
  {
  }

  // ----- a frame, seen from the lifecycle -----

  lemma StatusPollAlike(m: Model, now: Millis)
    ensures Alike(m.StatusPoll(now).core,
                  if m.core.pause.requested then m.core.PausedPoll() else m.core.Poll(now).LinkUp())
  {
    hide Core.Poll, CommandValues, Ident.Asks, Ident.GivesUp, Ident.Ask;
  }

  lemma LinkUpAlike(c: Core, noted: seq<Event>)
    ensures Alike(c.(log := c.log + noted).LinkUp(), c.LinkUp()) && Alike(c.LinkUp(), c.LinkUp())
  {
  }

  lemma HookAlike(m: Model, now: Millis, readCnt: nat, words: seq<Word>)
    requires 1 <= |words| <= 9
    ensures var p := IsPoll(readCnt, words);
      Alike(m.Hook(now, readCnt, |words|, words[0] % 0x100).core,
            if !p then m.core.LinkUp()
            else if m.core.pause.requested then m.core.PausedPoll()
            else m.core.Poll(now).LinkUp())
  {
    hide Core.LinkUp, Alike, Model.StatusPoll;
    StatusPollAlike(m, now);
    LinkUpAlike(m.core, [EmptyCommand]);
    LinkUpAlike(m.core, [BusScan]);
    LinkUpAlike(m.core, [UnanswerableFrame(readCnt, |words|)]);
    LinkUpAlike(m.core, []);
  }

  lemma AppliedAlike(m: Model, now: Millis, words: seq<Word>)
    requires 1 <= |words| <= 9
    ensures Alike(m.Applied(now, words).core, m.core.AdvanceCounter())
  {
    hide OrWord, Model.BlockComplete;
    CompleteAlike(m.WriteCmds(words), now, |words|);
  }

  lemma AnswerKeeps()
    ensures forall n: Model, b: Byte, e: Byte {:trigger n.AnswerTransfer(b, e)} :: n.AnswerTransfer(b, e).core == n.core
  {
  }

  lemma CompleteAlike(m: Model, now: Millis, count: nat)
    ensures var d := m.BlockComplete(now, count).core;
      d == m.core.(pause := m.core.pause.(confirmed := d.pause.confirmed), log := d.log)
  {
    hide Ident.Receive, Ident.Keeps, Ident.KeepsFirmware, Ident.KeepsSecondHalf, Model.AnswerTransfer;
    AnswerKeeps();
  }

  lemma ExchangeAlike(m: Model, now: Millis, readCnt: nat, words: seq<Word>)
    requires 1 <= |words| <= 9
    ensures var input := Exchange(words[0] / 0x100, words[0] % 0x100, IsPoll(readCnt, words));
      Alike(m.Exchange(now, readCnt, words).core, Next(m.core, now, input))
  {
    var input := Exchange(words[0] / 0x100, words[0] % 0x100, IsPoll(readCnt, words));
    var a := m.(core := Received(m.core, input));
    HookAlike(a, now, readCnt, words);
    var h := a.Hook(now, readCnt, |words|, words[0] % 0x100);
    AppliedAlike(h, now, words);
    hide Received, Model.Hook, Model.Applied, Core.Poll, Core.PausedPoll, Core.LinkUp;
  }

  lemma MetAlike(m: Model, now: Millis, act: Act)
    ensures Alike(Met(m, now, act), m.core)
  {
    hide Validate;
  }

  lemma AnswerableAlike(m: Model, now: Millis, raw: seq<Byte>)
    requires Answerable(raw)
    ensures var input := Seen(m, now, Frame(raw));
      Possible(input) && Alike(m.ReadWrite(now, raw).0.core, Next(m.core, now, input))
  {
    hide Model.Exchange, Next, Validate, CountsAgree, Model.AnswerTo;
    AnswerableIsChecked(raw);
    var words := Registers(raw, 11, Rd16(raw, 8));
    assert words[0] == Rd16(raw, 11);
    ExchangeAlike(m, now, Rd16(raw, 4), words);
  }

  lemma AppliesAlike(m: Model, now: Millis, raw: seq<Byte>)
    requires Applies(raw)
    ensures var input := Seen(m, now, Frame(raw));
      Possible(input) && m.Broadcast(now, raw).0.core == Next(m.core, now, input)
  {
    hide Core.Report, Validate, Finished;
  }

  lemma NoiseAlike(m: Model, now: Millis, raw: seq<Byte>)
    requires !Answerable(raw) && !Applies(raw)
    ensures Alike(m.OnFrame(now, raw).0.core, m.core)
  {
    hide Model.Exchange, Core.Report, Validate, CountsAgree;
    if Accepted(raw) && raw[0] != 0 && raw[1] == 0x17 {
      AnswerableIsChecked(raw);
    }
  }

  lemma FrameAlike(m: Model, now: Millis, raw: seq<Byte>)
    ensures var input := Seen(m, now, Frame(raw));
      Possible(input) && Alike(m.OnFrame(now, raw).0.core, Next(Met(m, now, Frame(raw)), now, input))
  {
    var h := m.(core := m.core.Heard(now));
    if Answerable(raw) {
      AnswerableAlike(h, now, raw);
    } else if Applies(raw) {
      AppliesAlike(h, now, raw);
    } else {
      NoiseAlike(m, now, raw);
      MetAlike(m, now, Frame(raw));
    }
    hide Model.ReadWrite, Model.Broadcast, Core.Heard, Validate, Next;
  }

  lemma WatchdogAlike(m: Model, now: Millis)
    ensures Alike(m.core.CheckSilence(now), Next(m.core, now, CheckSilence(m.core.Gone(now))))
  {
    hide Elapsed;
  }

  lemma PublishAlike(m: Model)
    ensures Alike(m.PublishIdentity().core, m.core)
  {
    hide Cut;
  }

  lemma ActAlike(m: Model, now: Millis, act: Act)
    requires Allowed(act)
    ensures var input := Seen(m, now, act);
      Possible(input) && Alike(After(m, now, act).0.core, Next(Met(m, now, act), now, input))
  {
    hide Model.OnFrame, Model.PublishIdentity, Core.CheckSilence, Core.Gone, Validate;
    match act
    case Frame(raw) =>
      FrameAlike(m, now, raw);
      hide Next, Met, Seen, Alike;
    case Watchdog =>
      WatchdogAlike(m, now);
      hide Next, Alike;
    case Publish =>
      PublishAlike(m);
      hide Alike;
    case Call(_) =>
      hide Next;
  }

  // ----- runs of bytes -----

  datatype Recording = Recording(models: seq<Model>, acts: seq<Act>, times: seq<nat>)

  ghost predicate IsRecording(t: Recording) {
    && |t.models| == |t.acts| + 1 == |t.times| + 1
    && t.models[0] == NEW_MODEL
    && (forall i, j :: 0 <= i < j < |t.times| ==> t.times[i] <= t.times[j])
    && forall k :: 0 <= k < |t.acts| ==> Follows(t, k)
  }

  ghost predicate Follows(t: Recording, k: nat)
    requires k < |t.acts| == |t.times| == |t.models| - 1
  {
    && Allowed(t.acts[k])
    && t.models[k + 1] == After(t.models[k], Shown(t.times[k]), t.acts[k]).0
  }

  /** What goes back onto the wire at step `k`. */
  ghost function AnswerAt(t: Recording, k: nat): seq<Byte>
    requires IsRecording(t) && k < |t.acts|
  {
    assert Follows(t, k);
    After(t.models[k], Shown(t.times[k]), t.acts[k]).1
  }

  ghost function StateIn(t: Recording, k: nat): Core
    requires IsRecording(t) && k < |t.models|
  {
    if k < |t.acts| then Met(t.models[k], Shown(t.times[k]), t.acts[k]) else t.models[k].core
  }

  ghost function InputIn(t: Recording, k: nat): Input
    requires IsRecording(t) && k < |t.acts|
  {
    assert Follows(t, k);
    Seen(t.models[k], Shown(t.times[k]), t.acts[k])
  }

  /** The run of the command lifecycle inside a recording. */
  ghost function RunOf(t: Recording): (r: Run)
    requires IsRecording(t)
    ensures |r.states| == |t.models| && |r.inputs| == |t.acts| && r.times == t.times
    ensures forall k :: 0 <= k < |r.states| ==> r.states[k] == StateIn(t, k)
    ensures forall k :: 0 <= k < |r.inputs| ==> r.inputs[k] == InputIn(t, k)
  {
    Run(seq(|t.models|, k requires 0 <= k < |t.models| => StateIn(t, k)),
        seq(|t.acts|, k requires 0 <= k < |t.acts| => InputIn(t, k)), t.times)
  }

  lemma StateAlike(t: Recording, k: nat)
    requires IsRecording(t) && k < |t.models|
    ensures Alike(StateIn(t, k), t.models[k].core)
  {
    if k < |t.acts| {
      MetAlike(t.models[k], Shown(t.times[k]), t.acts[k]);
      hide Met;
    }
  }

  /** Every run of bytes and calls is a run of the command lifecycle. */
  lemma {:induction false} RecordingIsRun(t: Recording)
    requires IsRecording(t)
    ensures IsRun(RunOf(t))
  {
    var r := RunOf(t);
    StateAlike(t, 0);
    AlikeIsQuiet(r.states[0], NEW_CORE);
    StateAlikeCaps(t);
    forall k: nat | k < |r.inputs| ensures IsStep(r, k) {
      RecordingSteps(t, k);
    }
    hide StateIn, InputIn, Quiet, Next;
  }

  lemma StateAlikeCaps(t: Recording)
    requires IsRecording(t)
    ensures NEW_CORE.(caps := StateIn(t, 0).caps) == NEW_CORE
  {
    StateAlike(t, 0);
    hide StateIn;
  }

  lemma RecordingSteps(t: Recording, k: nat)
    requires IsRecording(t) && k < |t.acts|
    ensures IsStep(RunOf(t), k)
  {
    assert Follows(t, k);
    ActAlike(t.models[k], Shown(t.times[k]), t.acts[k]);
    StateAlike(t, k + 1);
    var d := Next(StateIn(t, k), Shown(t.times[k]), InputIn(t, k));
    hide After, Met, Next, Seen, Quiet;
    AlikeIsQuiet(StateIn(t, k + 1), d);
  }

  lemma AcknowledgementIsEmpty(m: Model, now: Millis, raw: seq<Byte>)
    requires Applies(raw)
    ensures Reading(m.OnFrame(now, raw).1) == []
  {
    hide Core.Report, Validate, ReportAgrees;
    var out := Finished(raw[..6]);
    assert out[2] == raw[2] == 0x9D;
  }

  lemma CarriesIsSent(m: Model, now: Millis, raw: seq<Byte>)
    requires Answerable(raw)
    ensures Carries(m.core.Heard(now), now, Rd16(raw, 4), Registers(raw, 11, Rd16(raw, 8)))
         == Sent(Met(m, now, Frame(raw)), now, Seen(m, now, Frame(raw)))
  {
    hide Core.Choose, Core.SyncCounter, Core.Heard, Validate;
    assert Registers(raw, 11, Rd16(raw, 8))[0] == Rd16(raw, 11);
  }

  lemma SilenceObeyed(m: Model, now: Millis, raw: seq<Byte>)
    requires !Answerable(raw) && !Applies(raw)
    ensures m.OnFrame(now, raw).1 == []
  {
    hide Model.Exchange, Core.Report, Core.Heard, Validate, CountsAgree;
    if Accepted(raw) && raw[0] != 0 && raw[1] == 0x17 {
      AnswerableIsChecked(raw);
    }
  }

  lemma FrameObeyed(m: Model, now: Millis, raw: seq<Byte>)
    ensures Obeyed(m.OnFrame(now, raw).1)
         == CommandValues(CommandOf(Sent(Met(m, now, Frame(raw)), now, Seen(m, now, Frame(raw)))))
  {
    if Answerable(raw) {
      hide Sent, Met, Carries, Obeyed, Model.OnFrame, CommandValues, Core.Heard, Validate;
      ObeyedIsChosen(m, now, raw);
      CarriesIsSent(m, now, raw);
    } else {
      hide Model.OnFrame, Met, Reading, Validate, Answerable, Applies;
      if Applies(raw) {
        AcknowledgementIsEmpty(m, now, raw);
      } else {
        SilenceObeyed(m, now, raw);
        assert Reading([]) == [] by {
          ReadingNothing();
        }
      }
    }
  }

  lemma ReadingNothing()
    ensures Reading([]) == []
  {
  }

  /** What the drive obeys at each step is what the lifecycle sent there, and nothing else ever is. */
  lemma {:induction false} ObeyedIsSent(t: Recording, k: nat)
    requires IsRecording(t) && k < |t.acts|
    ensures IsRun(RunOf(t))
    ensures Obeyed(AnswerAt(t, k)) == CommandValues(CommandOf(SentAt(RunOf(t), k)))
  {
    RecordingIsRun(t);
    assert Follows(t, k);
    if t.acts[k].Frame? {
      FrameObeyed(t.models[k], Shown(t.times[k]), t.acts[k].raw);
      hide Obeyed, Model.OnFrame, CommandValues, Met, Validate, Sent;
    } else {
      hide Core.Choose, Core.SyncCounter, Model.OnFrame, Model.PublishIdentity, Next;
    }
  }
}
