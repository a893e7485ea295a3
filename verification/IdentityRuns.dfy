/**
 * The identity exchange over a whole uptime: how often the drive is asked, and
 * what the serial number that is published is put together from.
 */
module IdentityRuns {
  import opened HcpTypes
  import opened Lifecycle
  import opened Hcp2Frame
  import opened Hcp2Model
  import opened Replies
  import opened Runs
  import opened Traffic
  import Session

  // ----- one exchange and the identity -----

  function Begun(id: Ident, c: Core): Ident {
    if !id.started && c.caps.hasIdentity then id.Start() else id
  }

  /** The first write of a payload: which half or text it is, behind the counter. */
  predicate IsPayload(words: seq<Word>) {
    |words| >= 2 && words[0] % 0x100 == CMD_TRANSFER
    && (words[1] / 0x100 == IDENT_SUB_SERIAL || words[1] / 0x100 == IDENT_SUB_FIRMWARE)
  }

  /** The command registers once a write has landed. */
  function Landed(m: Model, words: seq<Word>): Block
    requires |words| <= 9
  {
    words + m.regCmd[|words|..]
  }

  function IdentAfter(m: Model, now: Millis, readCnt: nat, words: seq<Word>): Ident
    requires 1 <= |words| <= 9
  {
    if IsPayload(words) then
      m.ident.Receive(now, Landed(m, words), words[0] / 0x100, words[1] / 0x100, |words|)
    else if IsPoll(readCnt, words) && !m.core.pause.requested then
      var id := Begun(m.ident, m.core);
      if CommandValues(CommandOf(Carries(m.core, now, readCnt, words))) == (0, 0) then id.Ask(now) else id
    else m.ident
  }

  /** Which value the answer asks for, or 0. */
  function RequestAfter(m: Model, now: Millis, readCnt: nat, words: seq<Word>): Byte {
    if IsPoll(readCnt, words) && !m.core.pause.requested
       && CommandValues(CommandOf(Carries(m.core, now, readCnt, words))) == (0, 0)
       && Begun(m.ident, m.core).Asks(now)
    then Begun(m.ident, m.core).wanted else 0
  }

  lemma HookIdent(m: Model, now: Millis, readCnt: nat, writeCnt: nat, command: Byte)
    requires 1 <= readCnt <= 8
    ensures var d := m.Hook(now, readCnt, writeCnt, command);
      var polls := writeCnt == 2 && readCnt == 8 && command == CMD_STATUS && !m.core.pause.requested;
      var id, v := Begun(m.ident, m.core), CommandValues(CommandOf(m.core.Choose(now)));
      && d.regCmd == m.regCmd
      && d.ident == (if !polls then m.ident else if v == (0, 0) then id.Ask(now) else id)
      && d.regResp[0] < 0x100 && d.regResp[1] < 0x100
      && (if polls && v == (0, 0) && id.Asks(now)
          then d.regResp[1] == RESP_REQUEST && d.regResp[2] == id.wanted * 0x100
          else readCnt >= 4 ==> d.regResp[1] != RESP_REQUEST)
  {
    PollNotesChoice(m.core, now);
    PollTouches(m.core, now);
    hide Core.Poll, Core.Choose, CommandValues, Ident.Asks, Ident.GivesUp, Ident.Ask;
  }

  lemma AppliedIdent(m: Model, now: Millis, words: seq<Word>)
    requires 1 <= |words| <= 9
    ensures m.Applied(now, words).ident
      == (if IsPayload(words) then m.ident.Receive(now, Landed(m, words), words[0] / 0x100, words[1] / 0x100, |words|)
          else m.ident)
  {
    hide OrWord, Ident.Receive, Ident.Keeps, Ident.KeepsFirmware, Ident.KeepsSecondHalf;
  }

  lemma ExchangeIdent(m: Model, now: Millis, readCnt: nat, words: seq<Word>)
    requires 1 <= readCnt <= 8 && 1 <= |words| <= 9
    ensures m.Exchange(now, readCnt, words).ident == IdentAfter(m, now, readCnt, words)
    ensures RequestedIn(m.Exchange(now, readCnt, words).regResp[..readCnt]) == RequestAfter(m, now, readCnt, words)
  {
    hide Core.SyncCounter, CommandValues, Model.Hook, Model.Applied, Core.Choose, Model.CounterWrite;
    hide Ident.Asks, Ident.Ask, Ident.Receive;
    var counterByte, command := words[0] / 0x100, words[0] % 0x100;
    var a := m.(core := m.core.SyncCounter(counterByte, command).ForgetSent());
    SyncKeepsCaps(m.core, counterByte, command);
    HookIdent(a, now, readCnt, |words|, command);
    var h := a.Hook(now, readCnt, |words|, command);
    AppliedIdent(h, now, words);
    AppliedShows(h, now, words);
    Mirrored(h, words[0]);
  }

  lemma SyncKeepsCaps(c: Core, counterByte: Byte, command: Byte)
    ensures c.SyncCounter(counterByte, command).pause == c.pause && c.SyncCounter(counterByte, command).caps == c.caps
  {
  }

  // ----- a frame and the identity -----

  lemma FrameIdent(m: Model, now: Millis, raw: seq<Byte>)
    requires Answerable(raw)
    ensures var h, words := m.(core := m.core.Heard(now)), Registers(raw, 11, Rd16(raw, 8));
      && m.OnFrame(now, raw).0.ident == IdentAfter(h, now, Rd16(raw, 4), words)
      && RequestedBy(m.OnFrame(now, raw).1) == RequestAfter(h, now, Rd16(raw, 4), words)
  {
    hide Model.Exchange, Validate, CountsAgree, Model.AnswerTo, Core.Heard, IdentAfter, RequestAfter;
    AnswerableIsChecked(raw);
    var h, words := m.(core := m.core.Heard(now)), Registers(raw, 11, Rd16(raw, 8));
    ExchangeIdent(h, now, Rd16(raw, 4), words);
    AnswerReadsBack(h.Exchange(now, Rd16(raw, 4), words), raw);
    hide Reading;
  }

  lemma OtherIdent(m: Model, now: Millis, raw: seq<Byte>)
    requires !Answerable(raw)
    ensures m.OnFrame(now, raw).0.ident == m.ident
    ensures RequestedBy(m.OnFrame(now, raw).1) == 0
  {
    if Applies(raw) {
      AcknowledgementIsEmpty(m, now, raw);
      hide Core.Report, Core.Heard, Validate, Reading;
    } else {
      SilenceObeyed(m, now, raw);
      SilenceChangesNothing(m, now, raw);
      ReadingNothing();
      hide Model.OnFrame, Validate, Answerable, Applies;
    }
  }

  // ----- how often the drive is asked -----

  /** The attempts at a value are the requests that went out for it. */
  predicate Attempted(id: Ident, serials: nat, firmwares: nat) {
    && (!id.started ==> id.wanted == 0 && serials == 0 && firmwares == 0)
    && serials <= IDENT_MAX_ATTEMPTS && firmwares <= IDENT_MAX_ATTEMPTS
    && (id.wanted == 0 || id.wanted == IDENT_REQ_SERIAL || id.wanted == IDENT_REQ_FIRMWARE)
    && (id.wanted == IDENT_REQ_SERIAL ==> serials == id.attempts && firmwares == 0)
    && (id.wanted == IDENT_REQ_FIRMWARE ==> firmwares == id.attempts)
  }

  function AskedFor(request: Byte, which: Byte): nat {
    if request == which then 1 else 0
  }

  lemma AttemptedStep(m: Model, now: Millis, readCnt: nat, words: seq<Word>, serials: nat, firmwares: nat)
    requires 1 <= |words| <= 9 && Attempted(m.ident, serials, firmwares)
    ensures var request := RequestAfter(m, now, readCnt, words);
      && Attempted(IdentAfter(m, now, readCnt, words),
                   serials + AskedFor(request, IDENT_REQ_SERIAL), firmwares + AskedFor(request, IDENT_REQ_FIRMWARE))
      && (request == 0 || request == IDENT_REQ_SERIAL || request == IDENT_REQ_FIRMWARE)
  {
    hide CommandValues, Carries, Elapsed, Text, Wire;
  }

  /** How many answers before step `k` asked for this value. */
  ghost function Requests(t: Recording, k: nat, which: Byte): nat
    requires IsRecording(t) && k < |t.models|
  {
    if k == 0 then 0 else Requests(t, k - 1, which) + AskedFor(RequestedBy(AnswerAt(t, k - 1)), which)
  }

  lemma ActAttempted(m: Model, now: Millis, act: Act, serials: nat, firmwares: nat)
    requires Allowed(act) && Attempted(m.ident, serials, firmwares)
    ensures var (d, out) := After(m, now, act);
      var request := RequestedBy(out);
      && Attempted(d.ident, serials + AskedFor(request, IDENT_REQ_SERIAL),
                   firmwares + AskedFor(request, IDENT_REQ_FIRMWARE))
      && (request == 0 || request == IDENT_REQ_SERIAL || request == IDENT_REQ_FIRMWARE)
  {
    hide Model.OnFrame, Next, Core.CheckSilence, Reading;
    if act.Frame? && Answerable(act.raw) {
      FrameIdent(m, now, act.raw);
      AttemptedStep(m.(core := m.core.Heard(now)), now, Rd16(act.raw, 4), Registers(act.raw, 11, Rd16(act.raw, 8)),
                    serials, firmwares);
      hide IdentAfter, RequestAfter, Attempted, Answerable;
    } else if act.Frame? {
      OtherIdent(m, now, act.raw);
    } else {
      ReadingNothing();
    }
  }

  lemma NoneAttempted()
    ensures Attempted(NEW_MODEL.ident, 0, 0)
  {
  }

  lemma {:induction false} AttemptsHold(t: Recording, k: nat)
    requires IsRecording(t) && k < |t.models|
    ensures Attempted(t.models[k].ident, Requests(t, k, IDENT_REQ_SERIAL), Requests(t, k, IDENT_REQ_FIRMWARE))
  {
    hide After, Attempted, RequestedBy, AskedFor;
    if k == 0 {
      NoneAttempted();
    } else {
      AttemptsHold(t, k - 1);
      assert Follows(t, k - 1);
      ActAttempted(t.models[k - 1], Shown(t.times[k - 1]), t.acts[k - 1],
                   Requests(t, k - 1, IDENT_REQ_SERIAL), Requests(t, k - 1, IDENT_REQ_FIRMWARE));
    }
  }

  lemma AskedSeldomSends(t: Recording, k: nat)
    requires IsRecording(t) && k < |t.acts|
    ensures RequestedBy(AnswerAt(t, k)) != 0 ==> IsRun(RunOf(t)) && SentAt(RunOf(t), k) == Nothing
  {
    hide IsRecording, AnswerAt, RequestedBy, SentAt, RunOf, IsRun;
    if RequestedBy(AnswerAt(t, k)) != 0 {
      Session.RequestCarriesNothing(t, k);
    }
  }

  /**
   * Over a whole uptime each value is asked for at most `IDENT_MAX_ATTEMPTS` times,
   * nothing else ever is, and an exchange whose answer asks takes no command out of
   * the slot and sends none again.
   */
  lemma AskedSeldom(t: Recording, k: nat)
    requires IsRecording(t) && k < |t.acts|
    ensures Requests(t, k + 1, IDENT_REQ_SERIAL) <= IDENT_MAX_ATTEMPTS
    ensures Requests(t, k + 1, IDENT_REQ_FIRMWARE) <= IDENT_MAX_ATTEMPTS
    ensures RequestedBy(AnswerAt(t, k)) in {0, IDENT_REQ_SERIAL, IDENT_REQ_FIRMWARE}
    ensures RequestedBy(AnswerAt(t, k)) != 0 ==> IsRun(RunOf(t)) && SentAt(RunOf(t), k) == Nothing
  {
    AskedSeldomSends(t, k);
    hide RunOf, SentAt, IsRun;
    AttemptsHold(t, k);
    AttemptsHold(t, k + 1);
    assert Follows(t, k);
    hide After, Reading;
    ActAttempted(t.models[k], Shown(t.times[k]), t.acts[k],
                 Requests(t, k, IDENT_REQ_SERIAL), Requests(t, k, IDENT_REQ_FIRMWARE));
  }
}
