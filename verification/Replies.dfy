/** What an answer on the newer bus says, to whom it is given, and what never shows in it. */
module Replies {
  import opened HcpTypes
  import opened BitOps
  import opened Lifecycle
  import opened Hcp2Frame
  import opened Hcp2Model
  import opened Runs

  // ----- reading an answer the way the drive does -----

  function Reading(answer: seq<Byte>): seq<Word> {
    if |answer| < 5 then []
    else
      var bytes: int := answer[2];
      if |answer| < 3 + 2 * (bytes / 2) then [] else Registers(answer, 3, bytes / 2)
  }

  /** The two registers the drive obeys: only a plain status carries a command. */
  function Obeyed(answer: seq<Byte>): (Word, Word) {
    ObeyedIn(Reading(answer))
  }

  function ObeyedIn(regs: seq<Word>): (Word, Word) {
    if |regs| < 4 || regs[1] % 0x100 != RESP_STATUS then (0, 0) else (regs[2], regs[3])
  }

  /** The identity value an answer asks for, or 0. */
  function RequestedBy(answer: seq<Byte>): Byte {
    RequestedIn(Reading(answer))
  }

  function RequestedIn(regs: seq<Word>): Byte {
    if |regs| < 4 || regs[1] % 0x100 != RESP_REQUEST then 0 else regs[2] / 0x100
  }

  lemma {:induction false} WireReadsBack(head: seq<Byte>, regs: seq<Word>, tail: seq<Byte>)
    ensures Registers(head + Wire(regs) + tail, |head|, |regs|) == regs
  {
    if regs != [] {
      var n := |regs| - 1;
      var rest := [regs[n] / 0x100, regs[n] % 0x100] + tail;
      WireReadsBack(head, regs[..n], rest);
      var f := head + Wire(regs) + tail;
      assert f == head + Wire(regs[..n]) + rest;
      RegistersPrefix(f, |head|, n);
      assert f[|head| + 2 * n] == regs[n] / 0x100 && f[|head| + 2 * n + 1] == regs[n] % 0x100;
      assert Rd16(f, |head| + 2 * n) == regs[n];
      assert regs == regs[..n] + [regs[n]];
    }
  }

  lemma RegistersPrefix(f: seq<Byte>, from: nat, n: nat)
    requires from + 2 * (n + 1) <= |f|
    ensures Registers(f, from, n + 1) == Registers(f, from, n) + [Rd16(f, from + 2 * n)]
  {
  }

  lemma AnswerReadsBack(m: Model, raw: seq<Byte>)
    requires |raw| >= 6 && 1 <= Rd16(raw, 4) <= REG_RESP_COUNT
    ensures var out := m.AnswerTo(raw);
      && Reading(out) == m.regResp[..Rd16(raw, 4)]
      && |out| == 2 * Rd16(raw, 4) + 5 && out[..3] == [raw[0], raw[1], Rd16(raw, 4) * 2]
      && Accepted(out)
  {
    hide Validate, Finished, Registers, Wire;
    var n := Rd16(raw, 4);
    var head, out := [raw[0], raw[1], n * 2], m.AnswerTo(raw);
    var body := head + Wire(m.regResp[..n]);
    assert out == body + out[|body|..];
    WireReadsBack(head, m.regResp[..n], out[|body|..]);
    FinishedIsAccepted(body);
    assert out[..3] == body[..3] == head;
    assert out[2] == head[2];
  }

  // ----- which frames are answered -----

  lemma AnswerableIsChecked(raw: seq<Byte>)
    requires Accepted(raw) && raw[0] != 0 && raw[1] == 0x17
    ensures Answerable(raw) <==>
      Validate(raw) >= 11 && Rd16(raw, 2) == REG_RESP_BASE && Rd16(raw, 6) == REG_CMD_BASE && CountsAgree(raw)
  {
  }

  /**
   * A read/write frame is answered exactly when it says what the bus carries, and
   * the answer is whole: checksum, addressee and as many registers as asked for.
   */
  lemma AnsweredIff(m: Model, now: Millis, raw: seq<Byte>)
    requires |raw| >= 2 && raw[1] == 0x17
    ensures m.OnFrame(now, raw).1 != [] <==> Answerable(raw)
    ensures Answerable(raw) ==>
      var out := m.OnFrame(now, raw).1;
      Accepted(out) && |out| == 2 * Rd16(raw, 4) + 5 && out[..3] == [raw[0], raw[1], Rd16(raw, 4) * 2]
  {
    hide Model.Exchange, Validate, CountsAgree, Model.AnswerTo, Core.Heard;
    if Accepted(raw) && raw[0] != 0 {
      AnswerableIsChecked(raw);
    }
    if Answerable(raw) {
      AnswerReadsBack(m.(core := m.core.Heard(now)).Exchange(now, Rd16(raw, 4), Registers(raw, 11, Rd16(raw, 8))), raw);
      hide Reading;
    }
  }

  // ----- a frame that gets no answer -----

  /** All that silence can leave behind: a sign of life, and a note of what was wrong. */
  predicate OnlyHeard(m: Model, d: Model) {
    d == m.(core := m.core.(
      lastFrameOn := d.core.lastFrameOn, log := d.core.log,
      door := m.core.door.(link := d.core.door.link, changed := d.core.door.changed)))
  }

  lemma SilenceChangesNothing(m: Model, now: Millis, raw: seq<Byte>)
    requires m.OnFrame(now, raw).1 == []
    ensures OnlyHeard(m, m.OnFrame(now, raw).0)
  {
    hide Model.ReadWrite, Model.Broadcast, Validate;
    if Accepted(raw) {
      var h := m.(core := m.core.Heard(now));
      if raw[1] == 0x17 && raw[0] != 0 {
        SilentReadWrite(h, now, raw);
      } else if raw[1] == 0x10 {
        SilentBroadcast(h, now, raw);
      }
    }
  }

  lemma SilentReadWrite(m: Model, now: Millis, raw: seq<Byte>)
    requires Accepted(raw) && raw[0] != 0 && raw[1] == 0x17
    requires m.ReadWrite(now, raw).1 == []
    ensures var d := m.ReadWrite(now, raw).0; d == m.(core := m.core.(log := d.core.log))
  {
    hide Model.Exchange, Wire, Finished, Validate;
  }

  lemma SilentBroadcast(m: Model, now: Millis, raw: seq<Byte>)
    requires Accepted(raw) && raw[1] == 0x10
    requires m.Broadcast(now, raw).1 == []
    ensures var d := m.Broadcast(now, raw).0; d == m.(core := m.core.(log := d.core.log))
  {
    hide Core.Report, Finished, Validate;
  }

  // ----- nothing of an earlier exchange shows -----

  /** Two codecs that differ at most in the answer registers. */
  predicate SameBut(m: Model, n: Model) {
    m.core == n.core && m.regCmd == n.regCmd && m.ident == n.ident && m.shape == n.shape
  }

  /** Their answers of `count` registers would be the same. */
  predicate SameAnswer(m: Model, n: Model, count: nat) {
    && SameBut(m, n)
    && m.regResp[0] == n.regResp[0] && m.regResp[1] == n.regResp[1]
    && (count <= 8 ==> m.regResp[..count] == n.regResp[..count])
  }

  lemma PollForgets(m: Model, n: Model, now: Millis)
    requires SameBut(m, n)
    ensures m.StatusPoll(now) == n.StatusPoll(now)
  {
    hide Core.Poll, CommandValues, Ident.Asks, Ident.GivesUp, Ident.Ask;
  }

  lemma HookForgets(m: Model, n: Model, now: Millis, readCnt: nat, writeCnt: nat, command: Byte)
    requires SameBut(m, n) && 1 <= readCnt <= 8
    ensures SameAnswer(m.Hook(now, readCnt, writeCnt, command), n.Hook(now, readCnt, writeCnt, command), readCnt)
  {
    PollForgets(m, n, now);
    hide Model.StatusPoll;
  }

  lemma WritesForget(m: Model, n: Model, now: Millis, words: seq<Word>, count: nat)
    requires SameAnswer(m, n, count) && 1 <= |words| <= 9 && count <= 8
    ensures SameAnswer(m.Applied(now, words), n.Applied(now, words), count)
  {
    hide OrWord, Ident.Receive, Ident.Keeps, Ident.KeepsFirmware, Ident.KeepsSecondHalf;
    assert SameAnswer(m.WriteCmds(words), n.WriteCmds(words), count);
    CompleteForgets(m.WriteCmds(words), n.WriteCmds(words), now, |words|, count);
    hide Model.WriteCmds, Model.BlockComplete;
  }

  lemma CompleteForgets(m: Model, n: Model, now: Millis, written: nat, count: nat)
    requires SameAnswer(m, n, count) && count <= 8
    ensures SameAnswer(m.BlockComplete(now, written), n.BlockComplete(now, written), count)
  {
    hide Ident.Receive, Ident.Keeps, Ident.KeepsFirmware, Ident.KeepsSecondHalf;
  }

  lemma ExchangeForgets(m: Model, n: Model, now: Millis, readCnt: nat, words: seq<Word>)
    requires SameBut(m, n) && 1 <= readCnt <= 8 && 1 <= |words| <= 9
    ensures SameAnswer(m.Exchange(now, readCnt, words), n.Exchange(now, readCnt, words), readCnt)
  {
    hide Core.SyncCounter;
    var counterByte, command := words[0] / 0x100, words[0] % 0x100;
    var a := m.(core := m.core.SyncCounter(counterByte, command).ForgetSent());
    var b := n.(core := n.core.SyncCounter(counterByte, command).ForgetSent());
    HookForgets(a, b, now, readCnt, |words|, command);
    WritesForget(a.Hook(now, readCnt, |words|, command), b.Hook(now, readCnt, |words|, command), now, words, readCnt);
    hide Model.Hook, Model.Applied;
  }

  /** For every frame, the answer and what becomes of the codec do not depend on the last answer. */
  lemma AnswerForgets(m: Model, n: Model, now: Millis, raw: seq<Byte>)
    requires SameBut(m, n)
    ensures m.OnFrame(now, raw).1 == n.OnFrame(now, raw).1
    ensures SameBut(m.OnFrame(now, raw).0, n.OnFrame(now, raw).0)
  {
    hide Model.Exchange, Core.Report, CountsAgree, ReportAgrees, Validate, Core.Heard;
    if Accepted(raw) && raw[0] != 0 && raw[1] == 0x17 {
      AnswerableIsChecked(raw);
      hide Wire, Finished;
      if Answerable(raw) {
        ExchangeForgets(m.(core := m.core.Heard(now)), n.(core := n.core.Heard(now)), now,
                        Rd16(raw, 4), Registers(raw, 11, Rd16(raw, 8)));
      }
    }
  }

  // ----- what an answer says -----

  /** A full status poll: the one exchange that can carry a command. */
  predicate IsPoll(readCnt: nat, words: seq<Word>) {
    readCnt == 8 && |words| == 2 && words[0] % 0x100 == CMD_STATUS
  }

  /** What the answer to this exchange carries. */
  function Carries(c: Core, now: Millis, readCnt: nat, words: seq<Word>): Choice {
    if IsPoll(readCnt, words) && !c.pause.requested
    then c.SyncCounter(words[0] / 0x100, words[0] % 0x100).ForgetSent().Choose(now)
    else Nothing
  }

  lemma OrBytes(lo: Byte, hi: Byte)
    ensures OrWord(lo, hi * 0x100) == hi * 0x100 + lo
  {
    PowValues();
    UpValues(0);
    UpValues(hi);
    OrSplit(0, lo, hi, 0, 8);
    OrZero(hi);
    OrZero(lo);
  }

  /** The drive's own counter and command byte are mirrored above what the hook put there. */
  lemma Mirrored(m: Model, val: Word)
    requires m.regResp[0] < 0x100 && m.regResp[1] < 0x100
    ensures m.CounterWrite(val).regResp
      == m.regResp[0 := val / 0x100 % 0x80 * 0x100 + m.regResp[0]][1 := val % 0x100 * 0x100 + m.regResp[1]]
  {
    OrBytes(m.regResp[0], val / 0x100 % 0x80);
    OrBytes(m.regResp[1], val % 0x100);
    hide OrWord;
  }

  /** Codes other than a transfer's leave the answer as the hook and the mirror made it. */
  lemma AppliedShows(m: Model, now: Millis, words: seq<Word>)
    requires 1 <= |words| <= 9 && m.regResp[0] < 0x100 && m.regResp[1] < 0x100
    ensures var d := m.Applied(now, words).regResp;
      if |words| >= 2 && words[0] % 0x100 == CMD_TRANSFER
      then d[0] == words[0] / 0x100 % 0x80 * 0x100 && (d[1] == 0x0400 + RESP_ACK || d[1] == 0x0400 + RESP_NAK)
           && d[2] == 0 && d[3] == 0
      else d == m.CounterWrite(words[0]).regResp
  {
    hide OrWord, Ident.Receive, Ident.Keeps, Ident.KeepsFirmware, Ident.KeepsSecondHalf;
  }

  lemma RideAlongShows(m: Model, now: Millis)
    ensures var v, d := CommandValues(m.core.watch.lastSent), m.RideAlong(now).regResp;
      || d == [0, RESP_STATUS, v.0, v.1, 0, 0, 0, 0]
      || (v == (0, 0) && d[0] == 0 && d[1] == RESP_REQUEST && d[2] % 0x100 == 0 && d[3] == 0)
  {
    hide CommandValues, Ident.Asks, Ident.GivesUp, Ident.Ask;
  }

  lemma HookShows(m: Model, now: Millis, readCnt: nat, writeCnt: nat, command: Byte)
    requires 1 <= readCnt <= 8
    ensures var d := m.Hook(now, readCnt, writeCnt, command).regResp;
      && d[0] < 0x100 && d[1] < 0x100
      && (if writeCnt == 2 && readCnt == 8 && command == CMD_STATUS then
            (if m.core.pause.requested then d[1] == RESP_PAUSE && d[2] == SLAVE_ID && d[3] == 0
             else var v := CommandValues(CommandOf(m.core.Choose(now)));
               || d == [0, RESP_STATUS, v.0, v.1, 0, 0, 0, 0]
               || (v == (0, 0) && d[1] == RESP_REQUEST && d[2] % 0x100 == 0 && d[3] == 0))
          else if readCnt >= 4 then (d[1] == 0x0005 && d[2] == 0x0430 && d[3] == 0x10FF) || d == PLAIN_STATUS
          else true)
  {
    PollNotesChoice(m.core, now);
    RideAlongShows(m.(core := m.core.Poll(now)), now);
    hide Core.Poll, Core.Choose, CommandValues, Model.RideAlong;
  }

  /** The third and fourth register of an answer that carries no command, whatever kind it is. */
  predicate Bare(r2: Word, r3: Word) {
    (r2 % 0x100 == 0 && r3 == 0) || (r2 == SLAVE_ID && r3 == 0) || (r2 == 0x0430 && r3 == 0x10FF)
  }

  /** No command looks like that. */
  lemma BareIsNoCommand(r2: Word, r3: Word, cmd: Command)
    requires Bare(r2, r3) && (r2, r3) == CommandValues(cmd)
    ensures CommandValues(cmd) == (0, 0)
  {
  }

  lemma ExchangeShows(m: Model, now: Millis, readCnt: nat, words: seq<Word>)
    requires 1 <= readCnt <= 8 && 1 <= |words| <= 9
    ensures var d := m.Exchange(now, readCnt, words).regResp;
      && d[0] / 0x100 == words[0] / 0x100 % 0x80
      && ObeyedIn(d[..readCnt]) == CommandValues(CommandOf(Carries(m.core, now, readCnt, words)))
      && (readCnt >= 4 ==>
            (d[2], d[3]) == CommandValues(CommandOf(Carries(m.core, now, readCnt, words))) || Bare(d[2], d[3]))
  {
    hide Core.SyncCounter, CommandValues, Model.Hook, Model.Applied, Core.Choose, Model.CounterWrite;
    var counterByte, command := words[0] / 0x100, words[0] % 0x100;
    var a := m.(core := m.core.SyncCounter(counterByte, command).ForgetSent());
    SyncKeepsPause(m.core, counterByte, command);
    HookShows(a, now, readCnt, |words|, command);
    var h := a.Hook(now, readCnt, |words|, command);
    AppliedShows(h, now, words);
    Mirrored(h, words[0]);
    NothingIsZero();
    var d, r := m.Exchange(now, readCnt, words).regResp, h.regResp;
    assert d == h.Applied(now, words).regResp;
    var choice := Carries(m.core, now, readCnt, words);
    if |words| >= 2 && command == CMD_TRANSFER {
      assert ObeyedIn(d[..readCnt]) == (0, 0);
    } else {
      assert d == r[0 := counterByte % 0x80 * 0x100 + r[0]][1 := command * 0x100 + r[1]];
      assert readCnt >= 2 ==> d[1] % 0x100 == r[1];
    }
  }

  lemma NothingIsZero()
    ensures CommandValues(NoCommand) == (0, 0)
  {
  }

  lemma SyncKeepsPause(c: Core, counterByte: Byte, command: Byte)
    ensures c.SyncCounter(counterByte, command).pause == c.pause
  {
  }

  /**
   * The drive obeys exactly the command this exchange chose, which only a full
   * status poll outside a pause can choose, and finds its own counter mirrored.
   */
  lemma ObeyedIsChosen(m: Model, now: Millis, raw: seq<Byte>)
    requires Answerable(raw)
    ensures var out := m.OnFrame(now, raw).1;
      && Reading(out) != [] && Reading(out)[0] / 0x100 == raw[11] % 0x80
      && Obeyed(out) == CommandValues(CommandOf(
           Carries(m.core.Heard(now), now, Rd16(raw, 4), Registers(raw, 11, Rd16(raw, 8)))))
  {
    hide Model.Exchange, Validate, CountsAgree, Model.AnswerTo, Core.Heard, Carries, CommandValues;
    AnswerableIsChecked(raw);
    var h, words := m.(core := m.core.Heard(now)), Registers(raw, 11, Rd16(raw, 8));
    ExchangeShows(h, now, Rd16(raw, 4), words);
    AnswerReadsBack(h.Exchange(now, Rd16(raw, 4), words), raw);
    hide Reading;
    assert words[0] == Rd16(raw, 11);
  }

  /**
   * Whatever code an answer has: its third and fourth register are those of a
   * command if and only if this exchange chose that command. No scan, request,
   * acknowledgement or announcement looks like one.
   */
  lemma {:induction false} RegistersTellTheCommand(m: Model, now: Millis, raw: seq<Byte>, cmd: Command)
    requires Answerable(raw) && CommandValues(cmd) != (0, 0)
    ensures var regs := Reading(m.OnFrame(now, raw).1);
      (|regs| >= 4 && (regs[2], regs[3]) == CommandValues(cmd)) <==>
        CommandOf(Carries(m.core.Heard(now), now, Rd16(raw, 4), Registers(raw, 11, Rd16(raw, 8)))) == cmd
  {
    hide Model.Exchange, Validate, CountsAgree, Model.AnswerTo, Core.Heard, Carries, CommandValues, Bare;
    AnswerableIsChecked(raw);
    ObeyedIsChosen(m, now, raw);
    var h, words := m.(core := m.core.Heard(now)), Registers(raw, 11, Rd16(raw, 8));
    ExchangeShows(h, now, Rd16(raw, 4), words);
    AnswerReadsBack(h.Exchange(now, Rd16(raw, 4), words), raw);
    hide Reading;
    var regs := Reading(m.OnFrame(now, raw).1);
    if |regs| >= 4 && Bare(regs[2], regs[3]) && (regs[2], regs[3]) == CommandValues(cmd) {
      BareIsNoCommand(regs[2], regs[3], cmd);
    }
    CommandsAreTold(cmd, CommandOf(Carries(m.core.Heard(now), now, Rd16(raw, 4), words)));
  }
}
