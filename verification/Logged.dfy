/**
 * What the event log owes to what crossed the wire: one entry for every command
 * that went out, under its own name, and none besides; and no answer owes anything to the one before.
 */
module Logged {
  import opened HcpTypes
  import opened Lifecycle
  import opened Hcp2Frame
  import opened Hcp2Model
  import opened Replies
  import opened Runs
  import opened Traffic

  predicate Carrying(e: Event) {
    e.CommandSent? || e.CommandRepeated?
  }

  /** What a log says went out, in order. */
  function Sends(log: seq<Event>): seq<Event> {
    if log == [] then []
    else
      var e := log[|log| - 1];
      Sends(log[..|log| - 1]) + (if Carrying(e) then [e] else [])
  }

  /** What has to be written down about a choice: the command, and whether it went out before. */
  function Entries(choice: Choice): seq<Event> {
    match choice
    case Fresh(cmd) => [CommandSent(cmd)]
    case Again(cmd) => [CommandRepeated(cmd)]
    case Nothing => []
  }

  predicate Says(c: Core, d: Core, es: seq<Event>) {
    Sends(d.log) == Sends(c.log) + es
  }

  lemma PushSays()
    ensures forall log: seq<Event>, e: Event {:trigger log + [e]} ::
      Sends(log + [e]) == Sends(log) + (if Carrying(e) then [e] else [])
  {
    forall log: seq<Event>, e: Event ensures Sends(log + [e]) == Sends(log) + (if Carrying(e) then [e] else []) {
      assert (log + [e])[..|log|] == log;
    }
  }

  lemma SyncSays(c: Core, counterByte: Byte, command: Byte)
    ensures Says(c, c.SyncCounter(counterByte, command).ForgetSent(), [])
  {
    hide Sends;
    PushSays();
  }

  lemma EffectSays(c: Core, now: Millis)
    ensures Says(c, c.CheckEffect(now), [])
  {
    hide Sends, Elapsed, Core.TookEffect;
    PushSays();
  }

  lemma QueueSays(c: Core, now: Millis)
    ensures Says(c, c.HonourCancel().Expire(now).TakeStop(), [])
  {
    hide Sends, Elapsed;
    PushSays();
  }

  lemma ReadySays(c: Core, now: Millis)
    ensures Says(c, c.Ready(now).TakeStop(), [])
  {
    hide Core.CheckEffect, Core.HonourCancel, Core.Expire, Core.TakeStop, Sends;
    EffectSays(c, now);
    QueueSays(c.CheckEffect(now), now);
  }

  lemma ChosenSays(c: Core, now: Millis)
    ensures Says(c, c.Chosen(now), [])
  {
    hide Sends;
    PushSays();
    ReadySays(c, now);
    hide Core.Ready, Core.TakeStop, Core.Choose, Core.RepeatStillMakesSense;
  }

  lemma PollSays(c: Core, now: Millis)
    ensures Says(c, c.Poll(now), Entries(c.Choose(now)))
  {
    hide Sends, Core.Chosen, Core.Ready;
    PushSays();
    ChosenSays(c, now);
  }

  lemma RideAlongSays(m: Model, now: Millis)
    ensures Says(m.core, m.RideAlong(now).core, [])
  {
    hide Sends;
    PushSays();
    hide CommandValues, Ident.Asks, Ident.Ask;
  }

  lemma HookSays(m: Model, now: Millis, readCnt: nat, writeCnt: nat, command: Byte)
    ensures Says(m.core, m.Hook(now, readCnt, writeCnt, command).core,
      if writeCnt == 2 && readCnt == 8 && command == CMD_STATUS && !m.core.pause.requested
      then Entries(m.core.Choose(now)) else [])
  {
    hide Sends;
    PushSays();
    PollSays(m.core, now);
    RideAlongSays(m.(core := m.core.Poll(now)), now);
    hide Core.Poll, Core.Choose, Model.RideAlong;
  }

  lemma AppliedSays(m: Model, now: Millis, words: seq<Word>)
    requires 1 <= |words| <= 9
    ensures Says(m.core, m.Applied(now, words).core, [])
  {
    hide Sends;
    PushSays();
    hide OrWord, Ident.Receive, Ident.Keeps, Ident.KeepsFirmware, Ident.KeepsSecondHalf;
  }

  lemma ExchangeSays(m: Model, now: Millis, readCnt: nat, words: seq<Word>)
    requires 1 <= |words| <= 9
    ensures Says(m.core, m.Exchange(now, readCnt, words).core, Entries(Carries(m.core, now, readCnt, words)))
  {
    hide Core.SyncCounter, Model.Hook, Model.Applied, Core.Choose;
    var counterByte, command := words[0] / 0x100, words[0] % 0x100;
    var a := m.(core := m.core.SyncCounter(counterByte, command).ForgetSent());
    SyncKeepsPause(m.core, counterByte, command);
    SyncSays(m.core, counterByte, command);
    HookSays(a, now, readCnt, |words|, command);
    AppliedSays(a.Hook(now, readCnt, |words|, command), now, words);
  }

  lemma RegisterSays(c: Core, i: nat, val: Word)
    requires i < 9
    ensures Says(c, c.WriteBcast(i, val), [])
  {
    hide Sends;
    PushSays();
  }

  lemma {:induction false} RegistersSay(c: Core, words: seq<Word>, i: nat)
    requires i <= |words| <= 9
    ensures Says(c, c.WriteFrom(words, i), [])
    decreases |words| - i
  {
    if i < |words| {
      RegisterSays(c, i, words[i]);
      hide Core.WriteBcast;
      RegistersSay(c.WriteBcast(i, words[i]), words, i + 1);
    }
  }

  lemma ReportSays(c: Core, now: Millis, words: seq<Word>)
    requires |words| <= 9
    ensures Says(c, c.Report(now, words), [])
  {
    hide Sends;
    PushSays();
    RegistersSay(c.LinkUp(), words, 0);
    hide Core.WriteFrom;
  }

  lemma FrameSays(m: Model, now: Millis, raw: seq<Byte>)
    ensures Says(m.core, m.OnFrame(now, raw).0.core,
                 Entries(Sent(Met(m, now, Frame(raw)), now, Seen(m, now, Frame(raw)))))
  {
    var h := m.(core := m.core.Heard(now));
    if Answerable(raw) {
      AnswerableIsChecked(raw);
      CarriesIsSent(m, now, raw);
      ExchangeSays(h, now, Rd16(raw, 4), Registers(raw, 11, Rd16(raw, 8)));
      hide Sent, Met, Seen, Carries, Model.Exchange, Model.AnswerTo, Validate, CountsAgree;
    } else if Applies(raw) {
      ReportSays(h.core, now, Registers(raw, 7, Rd16(raw, 4)));
      hide Core.Report, Met, Validate, Finished;
    } else {
      NoiseSays(m, now, raw);
      hide Model.OnFrame, Met, Validate;
    }
  }

  lemma NoiseSays(m: Model, now: Millis, raw: seq<Byte>)
    requires !Answerable(raw) && !Applies(raw)
    ensures Says(m.core, m.OnFrame(now, raw).0.core, [])
  {
    hide Sends;
    PushSays();
    hide Model.Exchange, Core.Report, Validate, CountsAgree, Finished;
    if Accepted(raw) && raw[0] != 0 && raw[1] == 0x17 {
      AnswerableIsChecked(raw);
    }
  }

  lemma PositionSays(c: Core, now: Millis, percent: int)
    ensures Says(c, c.SetPosition(now, percent), [])
  {
    hide Sends, Core.GotoCommand;
    PushSays();
  }

  lemma CallSays(c: Core, now: Millis, input: Input)
    requires IsCall(input)
    ensures Says(c, Next(c, now, input), [])
  {
    hide Sends;
    PushSays();
    PositionSays(c, now, if input.GoTo? then input.percent else 0);
    hide Core.SetPosition, Core.CheckSilence, Core.Report, Core.Poll, Received;
  }

  lemma WatchdogSays(c: Core, now: Millis)
    ensures Says(c, c.CheckSilence(now), [])
  {
    hide Sends, Elapsed;
    PushSays();
  }

  lemma PublishSays(m: Model)
    ensures Says(m.core, m.PublishIdentity().core, [])
  {
    hide Sends;
  }

  /**
   * The log gains an entry about a command exactly at the steps that carry one, and
   * it names that command and says whether it went out for the first time.
   */
  lemma LogTellsWhatWasSent(t: Recording, k: nat)
    requires IsRecording(t) && k < |t.acts|
    ensures IsRun(RunOf(t))
    ensures Says(t.models[k].core, t.models[k + 1].core, Entries(SentAt(RunOf(t), k)))
  {
    RecordingIsRun(t);
    assert Follows(t, k);
    match t.acts[k]
    case Frame(raw) =>
      FrameSays(t.models[k], Shown(t.times[k]), raw);
      hide Model.OnFrame, Met, Seen, Sent, Validate, Says;
    case Call(input) =>
      CallSays(t.models[k].core, Shown(t.times[k]), input);
      hide Next, Model.OnFrame, Says;
    case Watchdog =>
      WatchdogSays(t.models[k].core, Shown(t.times[k]));
      hide Next, Model.OnFrame, Says, Core.CheckSilence;
    case Publish =>
      PublishSays(t.models[k]);
      hide Next, Model.OnFrame, Says, Model.PublishIdentity;
  }

  /**
   * On the wire: whatever the drive is told to do is the command taken last, and
   * this is at most the fifth answer to say it.
   */
  lemma WireIsBudgeted(t: Recording, k: nat)
    requires IsRecording(t) && k < |t.acts| && Obeyed(AnswerAt(t, k)) != (0, 0)
    ensures IsRun(RunOf(t))
    ensures !SentAt(RunOf(t), k).Nothing?
    ensures Obeyed(AnswerAt(t, k)) == CommandValues(Taken(RunOf(t), k + 1))
    ensures 1 <= Carried(RunOf(t), k + 1) <= 5
  {
    hide SentAt, Taken, Carried, AnswerAt, Obeyed, CommandValues, IsRun;
    ObeyedIsSent(t, k);
    NothingIsZero();
    TakenIsSent(RunOf(t), k);
    CapsInRun(t);
  }

  lemma CapsInRun(t: Recording)
    requires IsRecording(t) && IsRun(RunOf(t))
    ensures RunOf(t).states[0].caps == HCP2_CAPABILITIES
  {
    StateAlike(t, 0);
    hide StateIn;
  }

  lemma TakenIsSent(r: Run, k: nat)
    requires IsRun(r) && k < |r.inputs| && !SentAt(r, k).Nothing?
    ensures Taken(r, k + 1) == SentAt(r, k).cmd
    ensures 1 <= Carried(r, k + 1) <= 1 + r.states[0].caps.lostAnswerRepeats + r.states[0].caps.unactedRepeats
  {
    hide SentAt, Taken, IsStep;
    CarriedIsBounded(r, k + 1);
    TakenNowIs(r, k);
  }

  lemma TakenNowIs(r: Run, k: nat)
    requires IsRun(r) && k < |r.inputs| && !SentAt(r, k).Nothing?
    ensures Taken(r, k + 1) == SentAt(r, k).cmd
  {
    hide SentAt, Carried, IsStep;
    CarriedIsBounded(r, k);
  }

  // ----- whole runs forget what was answered before -----

  function Answers(m: Model, script: seq<(Millis, Act)>): seq<seq<Byte>>
    requires forall i :: 0 <= i < |script| ==> Allowed(script[i].1)
    decreases |script|
  {
    if script == [] then []
    else
      var (d, out) := After(m, script[0].0, script[0].1);
      [out] + Answers(d, script[1..])
  }

  lemma ActForgets(m: Model, n: Model, now: Millis, act: Act)
    requires SameBut(m, n) && Allowed(act)
    ensures After(m, now, act).1 == After(n, now, act).1
    ensures SameBut(After(m, now, act).0, After(n, now, act).0)
  {
    hide Model.OnFrame, Next, Core.CheckSilence;
    if act.Frame? {
      AnswerForgets(m, n, now, act.raw);
    }
  }

  /** Whatever the answer registers held to begin with, no answer ever shows it. */
  lemma {:induction false} NothingLeaks(m: Model, n: Model, script: seq<(Millis, Act)>)
    requires SameBut(m, n)
    requires forall i :: 0 <= i < |script| ==> Allowed(script[i].1)
    ensures Answers(m, script) == Answers(n, script)
    decreases |script|
  {
    if script != [] {
      var (now, act) := script[0];
      ActForgets(m, n, now, act);
      hide After, SameBut;
      NothingLeaks(After(m, now, act).0, After(n, now, act).0, script[1..]);
    }
  }
}
