/**
 * That the drive is asked who it is, over whole runs of bytes: at once for the
 * serial number, again after half a minute of silence, three times at most, and
 * for the firmware version as soon as the serial number is complete.
 */
module AskRuns {
  import opened HcpTypes
  import opened Lifecycle
  import opened Hcp2Frame
  import opened Hcp2Model
  import opened Replies
  import opened Runs
  import opened Traffic
  import opened SendRuns
  import opened IdentityRuns
  import Logged
  import Session

  /** The registers the drive wrote in an exchange. */
  function Written(raw: seq<Byte>): seq<Word>
    requires Answerable(raw)
  {
    Registers(raw, 11, Rd16(raw, 8))
  }

  /** A payload of the drive: a write of two registers or more that says so. */
  predicate Pays(act: Act) {
    && act.Frame? && Answerable(act.raw) && Rd16(act.raw, 8) >= 2
    && act.raw[12] == 0x04 && (act.raw[13] == 0x0C || act.raw[13] == 0x0D)
  }

  /** A full status poll is answered at step `k`, outside a pause, and its answer carries no command. */
  ghost predicate FreePoll(t: Recording, k: nat)
    requires IsRecording(t) && IsRun(RunOf(t)) && k < |t.acts|
  {
    Polls(RunOf(t), k) && SentAt(RunOf(t), k) == Nothing
  }

  ghost function AskedAt(t: Recording, k: nat): Byte
    requires IsRecording(t) && k < |t.acts|
  {
    RequestedBy(AnswerAt(t, k))
  }

  // ----- one act and the identity -----

  /** Equal in all that decides what is asked. */
  predicate AskAlike(a: Ident, b: Ident) {
    && a.wanted == b.wanted && a.attempts == b.attempts && a.askedOn == b.askedOn && a.asked == b.asked
    && a.started == b.started
  }

  lemma PaysIsPayload(raw: seq<Byte>)
    requires Answerable(raw)
    ensures Pays(Frame(raw)) <==> IsPayload(Written(raw))
    ensures 1 <= |Written(raw)| <= 9
    ensures Written(raw)[0] / 0x100 == raw[11] && Written(raw)[0] % 0x100 == raw[12]
    ensures |Written(raw)| >= 2 ==> Written(raw)[1] / 0x100 == raw[13]
  {
    hide Validate;
    AnswerableIsChecked(raw);
    var words := Written(raw);
    assert words[0] == Rd16(raw, 11);
    if |words| >= 2 {
      assert words[1] == Rd16(raw, 13);
    }
  }

  /** What a poll does to the identity, and what its answer asks for. */
  lemma PollIdent(m: Model, now: Millis, raw: seq<Byte>)
    requires Answerable(raw) && !Pays(Frame(raw)) && m.core.caps.hasIdentity
    ensures var (d, out) := m.OnFrame(now, raw);
      var input, h := Seen(m, now, Frame(raw)), Met(m, now, Frame(raw));
      var id := if !m.ident.started then m.ident.Start() else m.ident;
      if !input.Exchange? || !input.poll || m.core.pause.requested then d.ident == m.ident && RequestedBy(out) == 0
      else if Sent(h, now, input) == Nothing
      then d.ident == id.Ask(now) && RequestedBy(out) == (if id.Asks(now) then id.wanted else 0)
      else CommandValues(CommandOf(Sent(h, now, input))) != (0, 0) ==> d.ident == id && RequestedBy(out) == 0
  {
    hide Validate, Model.OnFrame, Sent, Core.Heard, Ident.Asks, Ident.Ask, Carries, CommandValues;
    PaysIsPayload(raw);
    FrameIdent(m, now, raw);
    CarriesIsSent(m, now, raw);
    HeardKeepsCaps(m.core, now);
    NothingIsZero();
    AnswerableIsAccepted(raw);
  }

  lemma AnswerableIsAccepted(raw: seq<Byte>)
    requires Answerable(raw)
    ensures Accepted(raw)
  {
    AnswerableIsChecked(raw);
    hide Validate;
  }

  lemma HeardKeepsCaps(c: Core, now: Millis)
    ensures c.Heard(now).caps == c.caps && c.Heard(now).pause == c.pause
  {
  }

  lemma CapsIn(t: Recording, k: nat)
    requires IsRecording(t) && k < |t.models|
    ensures IsRun(RunOf(t)) && t.models[k].core.caps == HCP2_CAPABILITIES
  {
    RecordingIsRun(t);
    Logged.CapsInRun(t);
    CapsStay(RunOf(t), k);
    StateAlike(t, k);
    hide StateIn, InputIn, IsRun;
  }

  /** A poll of the run, in the terms of the recording. */
  lemma PollIs(t: Recording, k: nat)
    requires IsRecording(t) && IsRun(RunOf(t)) && k < |t.acts|
    ensures var r, m, now, act := RunOf(t), t.models[k], Shown(t.times[k]), t.acts[k];
      && |r.inputs| == |t.acts| && Allowed(act)
      && r.inputs[k] == Seen(m, now, act)
      && (Polls(r, k) <==> Seen(m, now, act).Exchange? && Seen(m, now, act).poll && !m.core.pause.requested)
      && SentAt(r, k) == Sent(Met(m, now, act), now, Seen(m, now, act))
  {
    assert Traffic.Follows(t, k);
    hide IsRun, Seen, Met, Sent;
    InPauseIs(RunOf(t), k);
    StateAlike(t, k);
  }

  function Begins(id: Ident): Ident {
    if id.started then id else id.Start()
  }

  /** An answered poll whose answer carries a command tells one. */
  lemma CarriesReal(t: Recording, k: nat)
    requires IsRecording(t) && IsRun(RunOf(t)) && k < |t.acts| && SentAt(RunOf(t), k) != Nothing
    ensures CommandValues(CommandOf(SentAt(RunOf(t), k))) != (0, 0)
  {
    Session.SentIsReal(RunOf(t), k);
    CommandsAreTold(SentAt(RunOf(t), k).cmd, NoCommand);
    hide IsRun, SentAt, IsRecording;
  }

  lemma OtherActs(m: Model, now: Millis, act: Act)
    requires Allowed(act) && !(act.Frame? && Answerable(act.raw))
    ensures AskAlike(After(m, now, act).0.ident, m.ident) && RequestedBy(After(m, now, act).1) == 0
  {
    hide Model.OnFrame, Next, Core.CheckSilence, Answerable, Reading;
    ReadingNothing();
    if act.Frame? {
      OtherIdent(m, now, act.raw);
    }
  }

  /** One step of a recording, as far as asking is concerned. */
  lemma StepAsks(t: Recording, k: nat)
    requires IsRecording(t) && k < |t.acts| && !Pays(t.acts[k])
    ensures IsRun(RunOf(t)) && |RunOf(t).inputs| == |t.acts|
    ensures var id, d, now := t.models[k].ident, t.models[k + 1].ident, Shown(t.times[k]);
      if FreePoll(t, k)
      then AskAlike(d, Begins(id).Ask(now)) && AskedAt(t, k) == (if Begins(id).Asks(now) then Begins(id).wanted else 0)
      else (AskAlike(d, id) || AskAlike(d, Begins(id))) && AskedAt(t, k) == 0
  {
    CapsIn(t, k);
    PollIs(t, k);
    assert Traffic.Follows(t, k);
    var m, now, act := t.models[k], Shown(t.times[k]), t.acts[k];
    hide IsRecording, IsRun, After, Seen, Met, Sent, Pays, RequestedBy, Ident.Asks, Ident.Ask, Answerable;
    if act.Frame? && Answerable(act.raw) {
      AnsweredAsks(t, k);
    } else {
      OtherActs(m, now, act);
      NotAPoll(m, now, act);
    }
  }

  lemma NotAPoll(m: Model, now: Millis, act: Act)
    requires Allowed(act) && !(act.Frame? && Answerable(act.raw))
    ensures !(Seen(m, now, act).Exchange? && Seen(m, now, act).poll)
  {
    hide Answerable, Applies;
  }

  lemma AnsweredAsks(t: Recording, k: nat)
    requires IsRecording(t) && IsRun(RunOf(t)) && k < |t.acts| && !Pays(t.acts[k])
    requires t.acts[k].Frame? && Answerable(t.acts[k].raw)
    ensures var id, d, now := t.models[k].ident, t.models[k + 1].ident, Shown(t.times[k]);
      if FreePoll(t, k)
      then d == Begins(id).Ask(now) && AskedAt(t, k) == (if Begins(id).Asks(now) then Begins(id).wanted else 0)
      else (d == id || d == Begins(id)) && AskedAt(t, k) == 0
  {
    CapsIn(t, k);
    PollIs(t, k);
    assert Traffic.Follows(t, k);
    var m, now, act := t.models[k], Shown(t.times[k]), t.acts[k];
    hide IsRecording, IsRun, Seen, Met, Sent, Pays, RequestedBy, Ident.Asks, Ident.Ask, Ident.Start, Answerable,
      Model.OnFrame, CommandValues, CommandOf;
    PollIdent(m, now, act.raw);
    if SentAt(RunOf(t), k) != Nothing {
      CarriesReal(t, k);
    }
  }

  lemma PaysAsksNothing(m: Model, now: Millis, raw: seq<Byte>)
    requires Pays(Frame(raw))
    ensures RequestedBy(m.OnFrame(now, raw).1) == 0
  {
    hide Model.OnFrame, Validate, Reading, IdentAfter, Carries, CommandValues;
    PaysIsPayload(raw);
    FrameIdent(m, now, raw);
  }

  // ----- the first request -----

  /** From the beginning to just before step `k` nothing has been asked, or paid unasked. */
  ghost predicate NothingYet(t: Recording, k: nat)
    requires IsRecording(t) && IsRun(RunOf(t)) && k <= |t.acts|
  {
    forall m :: 0 <= m < k ==> !FreePoll(t, m) && !Pays(t.acts[m])
  }

  predicate Untouched(id: Ident) {
    !id.started || (id.wanted == 0x05 && !id.asked && id.attempts == 0)
  }

  lemma BeginsUntouched(id: Ident)
    requires Untouched(id)
    ensures var b := Begins(id); Untouched(b) && b.started && b.wanted == 0x05 && !b.asked && b.attempts == 0
  {
  }

  lemma UntouchedStays(a: Ident, b: Ident)
    requires Untouched(a) && (AskAlike(b, a) || AskAlike(b, Begins(a)))
    ensures Untouched(b)
  {
  }

  lemma {:induction false} UntouchedUntil(t: Recording, k: nat)
    requires IsRecording(t) && IsRun(RunOf(t)) && k <= |t.acts| && NothingYet(t, k)
    ensures |t.models| == |t.acts| + 1 && Untouched(t.models[k].ident)
  {
    hide *;
    TapeShape(t);
    if k == 0 {
      NewIsUntouched();
    } else {
      NothingBefore(t, k);
      UntouchedUntil(t, k - 1);
      StepAsks(t, k - 1);
      UntouchedStays(t.models[k - 1].ident, t.models[k].ident);
    }
  }

  lemma TapeShape(t: Recording)
    requires IsRecording(t)
    ensures |t.models| == |t.acts| + 1 == |t.times| + 1 && t.models[0] == NEW_MODEL
  {
    hide Traffic.Follows;
  }

  lemma NothingBefore(t: Recording, k: nat)
    requires IsRecording(t) && IsRun(RunOf(t)) && 0 < k <= |t.acts| && NothingYet(t, k)
    ensures NothingYet(t, k - 1) && !FreePoll(t, k - 1) && !Pays(t.acts[k - 1])
  {
    hide IsRecording, IsRun, RunOf, FreePoll, Pays;
  }

  lemma NewIsUntouched()
    ensures Untouched(NEW_MODEL.ident)
  {
  }

  /** The first poll that has room for it asks for the serial number. */
  lemma {:induction false} AsksAtOnce(t: Recording, k: nat)
    requires IsRecording(t) && IsRun(RunOf(t)) && k < |t.acts| && FreePoll(t, k) && NothingYet(t, k)
    ensures AskedAt(t, k) == 0x05
  {
    hide IsRun, FreePoll, RequestedBy;
    UntouchedUntil(t, k);
    BeginsUntouched(t.models[k].ident);
    PollPaysNot(t, k);
    StepAsks(t, k);
    hide IsRecording, Untouched, Begins, Pays;
  }

  /** A poll is no payload. */
  lemma PollPaysNot(t: Recording, k: nat)
    requires IsRecording(t) && IsRun(RunOf(t)) && k < |t.acts| && FreePoll(t, k)
    ensures !Pays(t.acts[k])
  {
    PollIs(t, k);
    hide IsRun, Met, Sent, IsRecording;
    if Pays(t.acts[k]) {
      PaysIsPayload(t.acts[k].raw);
      PaysIsNoPoll(t.models[k], Shown(t.times[k]), t.acts[k]);
    }
  }

  lemma PaysIsNoPoll(m: Model, now: Millis, act: Act)
    requires Allowed(act) && Pays(act)
    ensures !Seen(m, now, act).poll
  {
    hide Answerable;
    PaysIsPayload(act.raw);
  }

  // ----- payloads, and what follows them -----

  /** The drive reads in the answer that its payload was taken. */
  predicate SaysTaken(answer: seq<Byte>) {
    |Reading(answer)| >= 2 && Reading(answer)[1] == 0x04FD
  }

  ghost predicate TakenAt(t: Recording, k: nat)
    requires IsRecording(t) && k < |t.acts|
  {
    Pays(t.acts[k]) && SaysTaken(AnswerAt(t, k))
  }

  lemma AppliedTakes(m: Model, now: Millis, words: seq<Word>)
    requires 1 <= |words| <= 9 && IsPayload(words)
    ensures m.Applied(now, words).regResp[1]
      == 0x0400 + (if m.ident.Keeps(words[0] / 0x100, words[1] / 0x100, |words|) then 0xFD else 0xFE)
  {
    hide OrWord, Ident.Receive, Ident.Keeps, Ident.KeepsFirmware, Ident.KeepsSecondHalf;
  }

  lemma ExchangeTakes(m: Model, now: Millis, readCnt: nat, words: seq<Word>)
    requires 1 <= readCnt <= 8 && 1 <= |words| <= 9 && IsPayload(words)
    ensures m.Exchange(now, readCnt, words).regResp[1]
      == 0x0400 + (if m.ident.Keeps(words[0] / 0x100, words[1] / 0x100, |words|) then 0xFD else 0xFE)
  {
    hide Core.SyncCounter, Model.Hook, Model.Applied, Ident.Keeps;
    var counterByte, command := words[0] / 0x100, words[0] % 0x100;
    var a := m.(core := m.core.SyncCounter(counterByte, command).ForgetSent());
    HookIdent(a, now, readCnt, |words|, command);
    AppliedTakes(a.Hook(now, readCnt, |words|, command), now, words);
  }

  /** An answer of two registers or more says that a payload was taken exactly where it was kept. */
  lemma TakenIff(m: Model, now: Millis, raw: seq<Byte>)
    requires Pays(Frame(raw))
    ensures SaysTaken(m.OnFrame(now, raw).1)
      <==> (Rd16(raw, 4) >= 2 && m.ident.Keeps(raw[11], raw[13], Rd16(raw, 8)))
  {
    hide Validate, Model.Exchange, Ident.Keeps, Reading, Core.Heard, Model.AnswerTo, CountsAgree;
    PaysIsPayload(raw);
    AnswerableIsChecked(raw);
    var h, words := m.(core := m.core.Heard(now)), Written(raw);
    ExchangeTakes(h, now, Rd16(raw, 4), words);
    AnswerReadsBack(h.Exchange(now, Rd16(raw, 4), words), raw);
  }

  lemma PayIdent(m: Model, now: Millis, raw: seq<Byte>)
    requires Pays(Frame(raw))
    ensures m.OnFrame(now, raw).0.ident
      == m.ident.Receive(now, Landed(m, Written(raw)), raw[11], raw[13], Rd16(raw, 8))
  {
    hide Validate, Model.OnFrame, Ident.Receive;
    PaysIsPayload(raw);
    FrameIdent(m, now, raw);
  }

  /** The three kinds of payload, by sub code, half and length, with enough read back to see what becomes of it. */
  predicate IsFirstHalf(act: Act) {
    Pays(act) && Rd16(act.raw, 4) >= 2 && act.raw[13] == 0x0C && act.raw[11] >= 0x80 && Rd16(act.raw, 8) == 9
  }

  predicate IsSecondHalf(act: Act) {
    Pays(act) && Rd16(act.raw, 4) >= 2 && act.raw[13] == 0x0C && act.raw[11] < 0x80 && Rd16(act.raw, 8) >= 8
  }

  predicate IsVersion(act: Act) {
    Pays(act) && Rd16(act.raw, 4) >= 2 && act.raw[13] == 0x0D && Rd16(act.raw, 8) >= 8
  }

  /** Between two steps nothing was paid and no poll had room to ask. */
  ghost predicate Calm(t: Recording, i: nat, k: nat)
    requires IsRecording(t) && IsRun(RunOf(t)) && k <= |t.acts|
  {
    forall m :: i < m < k ==> !Pays(t.acts[m]) && !FreePoll(t, m)
  }

  predicate Same(a: Ident, b: Ident) {
    AskAlike(a, b) && a.firstHalfSeen == b.firstHalfSeen
  }

  /** In a step that neither pays nor asks a started identity stays as it is. */
  lemma CalmStep(t: Recording, k: nat)
    requires IsRecording(t) && IsRun(RunOf(t)) && k < |t.acts| && !Pays(t.acts[k]) && !FreePoll(t, k)
    requires t.models[k].ident.started
    ensures |t.models| == |t.acts| + 1 && Same(t.models[k + 1].ident, t.models[k].ident)
  {
    TapeShape(t);
    CapsIn(t, k);
    PollIs(t, k);
    assert Traffic.Follows(t, k);
    var m, now, act := t.models[k], Shown(t.times[k]), t.acts[k];
    hide IsRecording, IsRun, Seen, Met, Sent, Pays, RequestedBy, Answerable, Model.OnFrame, CommandValues, CommandOf;
    if act.Frame? && Answerable(act.raw) {
      AnsweredAsks(t, k);
    } else {
      OtherSame(m, now, act);
    }
  }

  lemma OtherSame(m: Model, now: Millis, act: Act)
    requires Allowed(act) && !(act.Frame? && Answerable(act.raw))
    ensures Same(Traffic.After(m, now, act).0.ident, m.ident)
  {
    hide Model.OnFrame, Next, Core.CheckSilence, Answerable;
    if act.Frame? {
      OtherIdent(m, now, act.raw);
    }
  }

  lemma {:induction false} CalmStays(t: Recording, i: nat, k: nat)
    requires IsRecording(t) && IsRun(RunOf(t)) && i < k <= |t.acts| && Calm(t, i, k)
    requires t.models[i + 1].ident.started
    ensures |t.models| == |t.acts| + 1 && Same(t.models[k].ident, t.models[i + 1].ident)
  {
    hide IsRecording, IsRun, RunOf, FreePoll, Pays;
    TapeShape(t);
    if k > i + 1 {
      assert Calm(t, i, k - 1);
      CalmStays(t, i, k - 1);
      CalmStep(t, k - 1);
    }
  }

  /** What a step that is a payload does, and whether its answer says that it was taken. */
  lemma PayStep(t: Recording, k: nat)
    requires IsRecording(t) && k < |t.acts| && Pays(t.acts[k])
    ensures |t.models| == |t.acts| + 1
    ensures var id, raw := t.models[k].ident, t.acts[k].raw;
      && (TakenAt(t, k) <==> Rd16(raw, 4) >= 2 && id.Keeps(raw[11], raw[13], Rd16(raw, 8)))
      && (id.KeepsFirstHalf(raw[11], raw[13], Rd16(raw, 8)) && !id.KeepsFirmware(raw[13], Rd16(raw, 8)) ==>
            var d := t.models[k + 1].ident;
            d.wanted == id.wanted && d.firstHalfSeen && d.started == id.started && d.asked
            && d.askedOn == Shown(t.times[k]))
      && (id.KeepsSecondHalf(raw[11], raw[13], Rd16(raw, 8)) ==>
            var d := t.models[k + 1].ident;
            d.wanted == 0x06 && !d.asked && d.attempts == 0 && d.started == id.started)
      && (id.KeepsFirmware(raw[13], Rd16(raw, 8)) ==>
            var d := t.models[k + 1].ident; d.wanted == 0 && d.started == id.started)
      && (!id.Keeps(raw[11], raw[13], Rd16(raw, 8)) ==> t.models[k + 1].ident == id)
  {
    TapeShape(t);
    assert Traffic.Follows(t, k);
    var m, now, raw := t.models[k], Shown(t.times[k]), t.acts[k].raw;
    TakenIff(m, now, raw);
    PayIdent(m, now, raw);
    hide Model.OnFrame, Pays, SaysTaken, Text, Wire;
  }

  // ----- asking again -----

  /** A request for `v` is open since `at`, or has been given up. */
  predicate Open(id: Ident, v: Byte, at: Millis, requests: nat) {
    && id.started && v != 0
    && ((id.wanted == v && id.asked && id.askedOn == at) || (id.wanted == 0 && requests >= 3))
  }

  lemma AlikeOpen(a: Ident, b: Ident, v: Byte, at: Millis, requests: nat)
    requires AskAlike(a, b)
    ensures Open(a, v, at, requests) <==> Open(b, v, at, requests)
  {
  }

  lemma AskOpens(id: Ident, now: Millis)
    requires Begins(id).Asks(now)
    ensures var b := Begins(id);
      b.wanted != 0 && forall requests :: Open(b.Ask(now), b.wanted, now, requests)
  {
    hide Elapsed;
  }

  /** A poll that does not ask again leaves it open, or gives it up. */
  lemma SilentStaysOpen(id: Ident, now: Millis, v: Byte, at: Millis, requests: nat)
    requires Open(id, v, at, requests) && (id.wanted == v ==> id.attempts == requests) && !Begins(id).Asks(now)
    ensures Open(Begins(id).Ask(now), v, at, requests)
  {
    hide Elapsed;
  }

  lemma AsksAgainIff(id: Ident, now: Millis, v: Byte, at: Millis, requests: nat)
    requires Open(id, v, at, requests) && (id.wanted == v ==> id.attempts == requests)
    ensures (if Begins(id).Asks(now) then Begins(id).wanted else 0)
      == (if Elapsed(now, at) > 30000 && requests < 3 then v else 0)
  {
    hide Elapsed;
  }

  /** At `q` the value is asked for, or the first half of the serial number comes in: half an answer is progress. */
  ghost predicate Opens(t: Recording, q: nat, v: Byte)
    requires IsRecording(t) && q < |t.acts|
  {
    (v != 0 && AskedAt(t, q) == v) || (v == 0x05 && TakenAt(t, q) && IsFirstHalf(t.acts[q]))
  }

  /** Since then nothing was paid and nothing asked. */
  ghost predicate OpenSince(t: Recording, q: nat, k: nat, v: Byte)
    requires IsRecording(t)
  {
    && q < k <= |t.acts| && Opens(t, q, v)
    && forall m :: q < m < k ==> !Pays(t.acts[m]) && AskedAt(t, m) == 0
  }

  lemma RequestIsPoll(t: Recording, q: nat)
    requires IsRecording(t) && q < |t.acts| && AskedAt(t, q) != 0
    ensures IsRun(RunOf(t)) && FreePoll(t, q) && !Pays(t.acts[q])
    ensures |t.models| == |t.acts| + 1
    ensures Begins(t.models[q].ident).Asks(Shown(t.times[q])) && Begins(t.models[q].ident).wanted == AskedAt(t, q)
    ensures AskAlike(t.models[q + 1].ident, Begins(t.models[q].ident).Ask(Shown(t.times[q])))
  {
    hide IsRun, FreePoll, RequestedBy, Answerable, Model.OnFrame, Ident.Asks, Ident.Ask, Begins;
    CapsIn(t, q);
    assert Traffic.Follows(t, q);
    if Pays(t.acts[q]) {
      PaysAsksNothing(t.models[q], Shown(t.times[q]), t.acts[q].raw);
    }
    StepAsks(t, q);
  }

  lemma CountOf(t: Recording, k: nat, v: Byte)
    requires IsRecording(t) && k < |t.models| && (v == 0x05 || v == 0x06)
    ensures t.models[k].ident.wanted == v ==> t.models[k].ident.attempts == Requests(t, k, v)
    ensures 0 < k ==> Requests(t, k, v) == Requests(t, k - 1, v) + (if AskedAt(t, k - 1) == v then 1 else 0)
  {
    hide RequestedBy;
    AttemptsHold(t, k);
  }

  lemma {:induction false} StaysOpen(t: Recording, q: nat, k: nat, v: Byte)
    requires IsRecording(t) && OpenSince(t, q, k, v)
    ensures |t.models| == |t.acts| + 1 && (v == 0x05 || v == 0x06)
    ensures Open(t.models[k].ident, v, Shown(t.times[q]), Requests(t, k, v))
  {
    hide *;
    SinceMeans(t, q, k, v);
    OpenIsKnown(t, q, v);
    CountOf(t, k, v);
    if k == q + 1 {
      OpenedAt(t, q, v);
    } else {
      StaysOpen(t, q, k - 1, v);
      CountOf(t, k - 1, v);
      var id, now, at, n := t.models[k - 1].ident, Shown(t.times[k - 1]), Shown(t.times[q]), Requests(t, k - 1, v);
      StepAsks(t, k - 1);
      StartedBegins(id, v, at, n);
      if FreePoll(t, k - 1) {
        WantedIsNotZero(id, now, v, at, n);
        SilentStaysOpen(id, now, v, at, n);
        AlikeOpen(t.models[k].ident, Begins(id).Ask(now), v, at, n);
      } else {
        AlikeOpen(t.models[k].ident, id, v, at, n);
      }
    }
  }

  lemma OpenIsKnown(t: Recording, q: nat, v: Byte)
    requires IsRecording(t) && q < |t.acts| && Opens(t, q, v)
    ensures v == 0x05 || v == 0x06
  {
    hide IsRecording, AskedAt, TakenAt, IsFirstHalf;
    if v != 0x05 {
      RequestIsKnown(t, q);
    }
  }

  lemma OpenedAt(t: Recording, q: nat, v: Byte)
    requires IsRecording(t) && q < |t.acts| && Opens(t, q, v)
    ensures |t.models| == |t.acts| + 1 == |t.times| + 1
    ensures Open(t.models[q + 1].ident, v, Shown(t.times[q]), Requests(t, q + 1, v))
  {
    hide *;
    TapeShape(t);
    OpensMeans(t, q, v);
    if AskedAt(t, q) == v {
      RequestIsPoll(t, q);
      AskOpens(t.models[q].ident, Shown(t.times[q]));
      AlikeOpen(t.models[q + 1].ident, Begins(t.models[q].ident).Ask(Shown(t.times[q])), v, Shown(t.times[q]),
                Requests(t, q + 1, v));
    } else {
      HalfOpens(t, q, Requests(t, q + 1, v));
    }
  }

  lemma OpensMeans(t: Recording, q: nat, v: Byte)
    requires IsRecording(t) && q < |t.acts| && Opens(t, q, v)
    ensures v != 0 && (AskedAt(t, q) == v || (v == 0x05 && TakenAt(t, q) && IsFirstHalf(t.acts[q])))
  {
    hide IsRecording, AskedAt, TakenAt, IsFirstHalf;
  }

  lemma HalfOpens(t: Recording, q: nat, requests: nat)
    requires IsRecording(t) && q < |t.acts| && TakenAt(t, q) && IsFirstHalf(t.acts[q])
    ensures |t.models| == |t.acts| + 1 == |t.times| + 1
    ensures Open(t.models[q + 1].ident, 0x05, Shown(t.times[q]), requests)
  {
    hide IsRecording, RequestedBy, SaysTaken, AnswerAt, Answerable;
    TapeShape(t);
    PayStep(t, q);
    AttemptsHold(t, q);
  }

  lemma StartedBegins(id: Ident, v: Byte, at: Millis, n: nat)
    requires Open(id, v, at, n)
    ensures Begins(id) == id
  {
  }

  lemma WantedIsNotZero(id: Ident, now: Millis, v: Byte, at: Millis, n: nat)
    requires Open(id, v, at, n) && (if Begins(id).Asks(now) then Begins(id).wanted else 0) == 0
    ensures !Begins(id).Asks(now)
  {
    hide Elapsed;
  }

  lemma SinceMeans(t: Recording, q: nat, k: nat, v: Byte)
    requires IsRecording(t) && OpenSince(t, q, k, v)
    ensures q < k <= |t.acts| == |t.times| == |t.models| - 1 && Opens(t, q, v)
    ensures k > q + 1 ==> OpenSince(t, q, k - 1, v) && !Pays(t.acts[k - 1]) && AskedAt(t, k - 1) == 0
  {
    hide Pays, AskedAt, Opens;
  }

  lemma RequestIsKnown(t: Recording, q: nat)
    requires IsRecording(t) && q < |t.acts| && AskedAt(t, q) != 0
    ensures AskedAt(t, q) == 0x05 || AskedAt(t, q) == 0x06
  {
    AskedSeldom(t, q);
    hide AnswerAt, RequestedBy, RunOf, IsRun, Requests;
  }

  /**
   * A request that nothing was paid for, or half of what it asked for, is sent again
   * with the first poll that has room for it more than 30 s later, and with none
   * sooner, until it has been sent three times.
   */
  lemma {:induction false} AsksAgain(t: Recording, q: nat, k: nat, v: Byte)
    requires IsRecording(t) && IsRun(RunOf(t)) && OpenSince(t, q, k, v) && k < |t.acts| && FreePoll(t, k)
    requires t.times[k] - t.times[q] < CLOCK_SPAN
    ensures AskedAt(t, k) == (if t.times[k] - t.times[q] > 30000 && Requests(t, k, v) < 3 then v else 0)
  {
    hide *;
    SinceMeans(t, q, k, v);
    StaysOpen(t, q, k, v);
    CountOf(t, k, v);
    PollPaysNot(t, k);
    StepAsks(t, k);
    AsksAgainIff(t.models[k].ident, Shown(t.times[k]), v, Shown(t.times[q]), Requests(t, k, v));
    TimesInOrder(t, q, k);
    ElapsedIsReal(t.times[k], t.times[q]);
  }

  lemma TimesInOrder(t: Recording, q: nat, k: nat)
    requires IsRecording(t) && q < k < |t.acts|
    ensures |t.times| == |t.acts| && t.times[q] <= t.times[k]
  {
    hide Traffic.Follows;
  }

  // ----- a request is met -----

  /**
   * A request is met: with nothing else paid and no poll in between that could ask,
   * a first half behind a request for the serial number is taken, a second half
   * behind a first half that was taken is, and so is a version behind a request for it.
   */
  lemma {:induction false} PaidIsTaken(t: Recording, i: nat, k: nat)
    requires IsRecording(t) && IsRun(RunOf(t)) && i < k < |t.acts| && Calm(t, i, k)
    ensures AskedAt(t, i) == 0x05 && IsFirstHalf(t.acts[k]) ==> TakenAt(t, k)
    ensures IsFirstHalf(t.acts[i]) && TakenAt(t, i) && IsSecondHalf(t.acts[k]) ==> TakenAt(t, k)
    ensures AskedAt(t, i) == 0x06 && IsVersion(t.acts[k]) ==> TakenAt(t, k)
  {
    hide IsRecording, IsRun, RunOf, Pays, FreePoll, RequestedBy, SaysTaken, Calm, AnswerAt;
    TapeShape(t);
    AttemptsHold(t, i);
    if AskedAt(t, i) != 0 {
      RequestIsPoll(t, i);
      AskKeepsWanted(t.models[i].ident, Shown(t.times[i]));
    }
    if Pays(t.acts[i]) {
      PayStep(t, i);
    }
    if t.models[i + 1].ident.started {
      CalmStays(t, i, k);
    }
    if Pays(t.acts[k]) {
      PayStep(t, k);
    }
  }

  lemma AskKeepsWanted(id: Ident, now: Millis)
    requires Begins(id).Asks(now)
    ensures Begins(id).Ask(now).wanted == Begins(id).wanted
  {
    hide Elapsed;
  }

  lemma DueAtOnce(id: Ident, now: Millis)
    requires id.started && id.wanted != 0 && !id.asked && id.attempts == 0
    ensures Begins(id).Asks(now) && Begins(id).wanted == id.wanted
  {
  }

  /** Once a second half has been taken, the first poll that has room for it asks for the firmware version. */
  lemma {:induction false} AsksForTheVersion(t: Recording, j: nat, k: nat)
    requires IsRecording(t) && IsRun(RunOf(t)) && j < k < |t.acts| && Calm(t, j, k) && FreePoll(t, k)
    requires TakenAt(t, j) && IsSecondHalf(t.acts[j])
    ensures AskedAt(t, k) == 0x06
  {
    hide IsRecording, IsRun, RunOf, FreePoll, RequestedBy, SaysTaken, Calm, AnswerAt, Answerable;
    TapeShape(t);
    PayStep(t, j);
    AttemptsHold(t, j);
    CalmStays(t, j, k);
    DueAtOnce(t.models[k].ident, Shown(t.times[k]));
    PollPaysNot(t, k);
    StepAsks(t, k);
  }

  /** Only what is whole is taken: a half or a version with all of its registers. */
  lemma {:induction false} TakenIsWhole(t: Recording, k: nat)
    requires IsRecording(t) && k < |t.acts| && TakenAt(t, k)
    ensures IsFirstHalf(t.acts[k]) || IsSecondHalf(t.acts[k]) || IsVersion(t.acts[k])
  {
    hide IsRecording, SaysTaken, AnswerAt;
    PayStep(t, k);
    PaysIsPayload(t.acts[k].raw);
  }

  // ----- when all is known -----

  predicate Over(id: Ident) {
    id.started && id.wanted == 0
  }

  lemma OverStays(a: Ident, b: Ident, now: Millis)
    requires Over(a) && (AskAlike(b, Begins(a).Ask(now)) || AskAlike(b, a) || AskAlike(b, Begins(a)))
    ensures Over(b) && !Begins(a).Asks(now)
  {
    hide Elapsed;
  }

  lemma OverKeepsNothing(id: Ident, counterByte: Byte, sub: Byte, count: nat)
    requires Over(id)
    ensures !id.Keeps(counterByte, sub, count)
  {
  }

  lemma OverPaid(t: Recording, k: nat)
    requires IsRecording(t) && k < |t.acts| && Over(t.models[k].ident) && Pays(t.acts[k])
    ensures |t.models| == |t.acts| + 1 && Over(t.models[k + 1].ident)
    ensures AskedAt(t, k) == 0 && !TakenAt(t, k)
  {
    var m, now, raw := t.models[k], Shown(t.times[k]), t.acts[k].raw;
    PayStep(t, k);
    OverKeepsNothing(m.ident, raw[11], raw[13], Rd16(raw, 8));
    assert Traffic.Follows(t, k);
    PaysAsksNothing(m, now, raw);
    hide RequestedBy, SaysTaken, Answerable, Over, Model.OnFrame, Ident.Keeps;
  }

  lemma OverStep(t: Recording, k: nat)
    requires IsRecording(t) && k < |t.acts| && Over(t.models[k].ident)
    ensures |t.models| == |t.acts| + 1 && Over(t.models[k + 1].ident)
    ensures AskedAt(t, k) == 0 && !TakenAt(t, k)
  {
    hide IsRecording, IsRun, FreePoll, RequestedBy, SaysTaken, AnswerAt, Answerable, Over, Begins, Pays;
    TapeShape(t);
    if Pays(t.acts[k]) {
      OverPaid(t, k);
    } else {
      StepAsks(t, k);
      OverStays(t.models[k].ident, t.models[k + 1].ident, Shown(t.times[k]));
    }
  }

  /** Once a version has been taken all is known: nothing is asked any more, and nothing more is taken. */
  lemma {:induction false} NothingMoreIsAsked(t: Recording, j: nat, k: nat)
    requires IsRecording(t) && j < k < |t.acts| && TakenAt(t, j) && IsVersion(t.acts[j])
    ensures AskedAt(t, k) == 0 && !TakenAt(t, k)
    ensures |t.models| == |t.acts| + 1 && Over(t.models[k].ident)
  {
    hide IsRecording, RequestedBy, SaysTaken, AnswerAt, Answerable;
    TapeShape(t);
    if k == j + 1 {
      PayStep(t, j);
      AttemptsHold(t, j);
    } else {
      NothingMoreIsAsked(t, j, k - 1);
      OverStep(t, k - 1);
    }
    OverStep(t, k);
  }
}
