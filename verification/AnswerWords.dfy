/** What every answer on the newer bus says, register by register, told from the frame that asked. */
module AnswerWords {
  import opened HcpTypes
  import opened Lifecycle
  import opened Hcp2Frame
  import opened Hcp2Model
  import opened Replies
  import opened IdentityRuns
  import opened AskRuns

  /** A write of two registers or more that transfers something. */
  predicate Transfers(words: seq<Word>) {
    |words| >= 2 && words[0] % 0x100 == 0x04
  }

  /**
   * The `count` registers that a frame with these words is answered with, when it is
   * no poll that may be told something. The drive finds its own count in the first
   * and, but for a transfer, its own command byte above the code in the second.
   * `kept` says whether a payload was.
   */
  function Plain(count: nat, words: seq<Word>, kept: bool): (regs: seq<Word>)
    requires 1 <= count <= 8 && 1 <= |words| <= 9
    ensures |regs| == count
  {
    var mine, said := words[0] / 0x100 % 0x80 * 0x100, words[0] % 0x100 * 0x100;
    if Transfers(words) then
      [mine, if words[1] / 0x100 == 0x19 || kept then 0x04FD else 0x04FE, 0, 0, 0, 0, 0, 0][..count]
    else if IsPoll(count, words) then [mine, 0x0329, 2, 0, 0, 0, 0, 0]
    else if |words| == 2 && count == 2 then [mine + 0x04, said]
    else if |words| == 3 && count == 5 then [mine, said + 0x05, 0x0430, 0x10FF, 0xA845]
    else [mine, said + 0x01, 0, 0, 0, 0, 0, 0][..count]
  }

  /** The same for a status poll outside a pause: a request, or else what the drive is to obey. */
  function Status(words: seq<Word>, obeyed: (Word, Word), asked: Byte): seq<Word>
    requires |words| >= 1
  {
    var mine := words[0] / 0x100 % 0x80 * 0x100;
    if asked != 0 then [mine, 0x0322, asked * 0x100, 0, 0, 0, 0, 0]
    else [mine, 0x0301, obeyed.0, obeyed.1, 0, 0, 0, 0]
  }

  // ----- what the hook puts there, what is mirrored over it, and what a transfer makes of it -----

  /** What a status poll outside a pause is answered with, before anything is mirrored over it. */
  predicate IsRide(d: Answers) {
    || d == [0, 0x01, d[2], d[3], 0, 0, 0, 0]
    || (d[2] % 0x100 == 0 && d[2] != 0 && d == [0, 0x22, d[2], 0, 0, 0, 0, 0])
  }

  lemma RideIs(m: Model, now: Millis)
    ensures IsRide(m.RideAlong(now).regResp)
  {
    hide CommandValues, Ident.GivesUp, Ident.Ask, Elapsed;
  }

  /** What the hook puts there for everything else. */
  function Hooked(count: nat, words: seq<Word>): seq<Word>
    requires 1 <= count <= 8 && 1 <= |words| <= 9
  {
    if IsPoll(count, words) then [0, 0x29, 2, 0, 0, 0, 0, 0]
    else if |words| == 2 && count == 2 then [0x04, 0x00]
    else if |words| == 3 && count == 5 then [0, 0x05, 0x0430, 0x10FF, 0xA845]
    else [0, 0x01, 0, 0, 0, 0, 0, 0][..count]
  }

  lemma PollWords(m: Model, now: Millis)
    ensures var d := m.StatusPoll(now).regResp;
      && d[0] < 0x100 && d[1] < 0x100
      && (if m.core.pause.requested then d == [0, 0x29, 2, 0, 0, 0, 0, 0] else IsRide(d))
  {
    RideIs(m.(core := m.core.Poll(now)), now);
    hide Core.Poll, Model.RideAlong;
  }

  lemma ShapeWords(m: Model, now: Millis, count: nat, words: seq<Word>)
    requires 1 <= count <= 8 && 1 <= |words| <= 9 && !IsPoll(count, words)
    ensures var d := m.Hook(now, count, |words|, words[0] % 0x100).regResp;
      d[0] < 0x100 && d[1] < 0x100 && d[..count] == Hooked(count, words)
  {
    hide Model.StatusPoll, Core.LinkUp, Model.NoteShape;
    var d := m.Hook(now, count, |words|, words[0] % 0x100).regResp;
    if |words| == 2 && count == 2 {
      assert d[..2] == [0x04, 0x00];
    } else if |words| == 3 && count == 5 {
      assert d[..5] == [0, 0x05, 0x0430, 0x10FF, 0xA845];
    }
  }

  lemma HookWords(m: Model, now: Millis, count: nat, words: seq<Word>)
    requires 1 <= count <= 8 && 1 <= |words| <= 9
    ensures var d := m.Hook(now, count, |words|, words[0] % 0x100).regResp;
      && d[0] < 0x100 && d[1] < 0x100
      && (if IsPoll(count, words) && !m.core.pause.requested then IsRide(d) else d[..count] == Hooked(count, words))
  {
    if IsPoll(count, words) {
      PollWords(m, now);
      hide Model.StatusPoll, IsRide;
    } else {
      ShapeWords(m, now, count, words);
      hide Model.Hook, Hooked, IsRide;
    }
  }

  lemma AppliedWords(m: Model, now: Millis, words: seq<Word>)
    requires 1 <= |words| <= 9 && m.regResp[0] < 0x100 && m.regResp[1] < 0x100
    ensures var d, mine := m.Applied(now, words).regResp, words[0] / 0x100 % 0x80 * 0x100;
      if Transfers(words)
      then d == [mine, 0x04FD, 0, 0, 0, 0, 0, 0] || d == [mine, 0x04FE, 0, 0, 0, 0, 0, 0]
      else d == m.regResp[0 := mine + m.regResp[0]][1 := words[0] % 0x100 * 0x100 + m.regResp[1]]
  {
    Mirrored(m, words[0]);
    hide OrWord, Ident.Receive, Ident.Keeps, Ident.KeepsFirmware, Ident.KeepsSecondHalf, Mirror;
  }

  /** A transfer that is no payload is taken if it is about a pause, and not otherwise. */
  lemma AppliedCode(m: Model, now: Millis, words: seq<Word>)
    requires 1 <= |words| <= 9 && Transfers(words) && words[1] / 0x100 != 0x0C && words[1] / 0x100 != 0x0D
    ensures m.Applied(now, words).regResp[1] == (if words[1] / 0x100 == 0x19 then 0x04FD else 0x04FE)
  {
    hide OrWord, Ident.Receive, Ident.Keeps, Ident.KeepsFirmware, Ident.KeepsSecondHalf, Mirror;
  }

  /** What is read back of an answer once the drive's own bytes are over it. */
  lemma OverPlain(d: Answers, h: Answers, count: nat, words: seq<Word>)
    requires 1 <= count <= 8 && 1 <= |words| <= 9 && !Transfers(words)
    requires h[0] < 0x100 && h[1] < 0x100 && h[..count] == Hooked(count, words)
    requires d == h[0 := words[0] / 0x100 % 0x80 * 0x100 + h[0]][1 := words[0] % 0x100 * 0x100 + h[1]]
    ensures d[..count] == Plain(count, words, false)
  {
    var a, b := Hooked(count, words), Plain(count, words, false);
    assert forall i :: 0 <= i < count ==> h[i] == h[..count][i];
    assert forall i :: 2 <= i < count ==> a[i] == b[i];
  }

  lemma OverRide(d: Answers, h: Answers, words: seq<Word>)
    requires |words| == 2 && words[0] % 0x100 == 0x03 && IsRide(h)
    requires d == h[0 := words[0] / 0x100 % 0x80 * 0x100 + h[0]][1 := words[0] % 0x100 * 0x100 + h[1]]
    ensures d == Status(words, ObeyedIn(d), RequestedIn(d))
  {
  }

  /** The answer registers an exchange comes to. */
  predicate Fits(regs: seq<Word>, count: nat, words: seq<Word>, pausing: bool, kept: bool)
    requires 1 <= count <= 8 && 1 <= |words| <= 9
  {
    if IsPoll(count, words) && !pausing then regs == Status(words, ObeyedIn(regs), RequestedIn(regs))
    else regs == Plain(count, words, kept)
  }

  lemma TransferFits(h: Model, now: Millis, count: nat, words: seq<Word>, pausing: bool)
    requires 1 <= count <= 8 && 1 <= |words| <= 9 && h.regResp[0] < 0x100 && h.regResp[1] < 0x100 && Transfers(words)
    ensures var d := h.Applied(now, words).regResp;
      Fits(d[..count], count, words, pausing, IsPayload(words) && d[1] == 0x04FD)
  {
    AppliedWords(h, now, words);
    if !IsPayload(words) {
      AppliedCode(h, now, words);
    }
    hide Model.Applied;
  }

  lemma PlainFits(h: Model, now: Millis, count: nat, words: seq<Word>, pausing: bool)
    requires 1 <= count <= 8 && 1 <= |words| <= 9 && h.regResp[0] < 0x100 && h.regResp[1] < 0x100 && !Transfers(words)
    requires if IsPoll(count, words) && !pausing then IsRide(h.regResp) else h.regResp[..count] == Hooked(count, words)
    ensures Fits(h.Applied(now, words).regResp[..count], count, words, pausing, false) && !IsPayload(words)
  {
    hide *;
    AppliedPlain(h, now, words);
    if IsPoll(count, words) && !pausing {
      PollFits(h.Applied(now, words).regResp, h.regResp, count, words);
    } else {
      OverPlain(h.Applied(now, words).regResp, h.regResp, count, words);
      PlainIsFit(count, words, pausing);
    }
  }

  lemma AppliedPlain(h: Model, now: Millis, words: seq<Word>)
    requires 1 <= |words| <= 9 && h.regResp[0] < 0x100 && h.regResp[1] < 0x100 && !Transfers(words)
    ensures h.Applied(now, words).regResp
      == h.regResp[0 := words[0] / 0x100 % 0x80 * 0x100 + h.regResp[0]][1 := words[0] % 0x100 * 0x100 + h.regResp[1]]
    ensures !IsPayload(words)
  {
    AppliedWords(h, now, words);
    hide Model.Applied;
  }

  lemma PollFits(d: Answers, h: Answers, count: nat, words: seq<Word>)
    requires IsPoll(count, words) && IsRide(h)
    requires d == h[0 := words[0] / 0x100 % 0x80 * 0x100 + h[0]][1 := words[0] % 0x100 * 0x100 + h[1]]
    ensures count == 8 && |words| == 2 && Fits(d[..count], count, words, false, false)
  {
    OverRide(d, h, words);
    assert d[..8] == d;
    hide IsRide, Status, ObeyedIn, RequestedIn;
  }

  lemma PlainIsFit(count: nat, words: seq<Word>, pausing: bool)
    requires 1 <= count <= 8 && 1 <= |words| <= 9 && !(IsPoll(count, words) && !pausing)
    ensures Fits(Plain(count, words, false), count, words, pausing, false)
  {
    hide Plain;
  }

  lemma HookedFits(m: Model, now: Millis, count: nat, words: seq<Word>)
    requires 1 <= count <= 8 && 1 <= |words| <= 9
    ensures var d := m.Hook(now, count, |words|, words[0] % 0x100).Applied(now, words).regResp;
      Fits(d[..count], count, words, m.core.pause.requested, IsPayload(words) && d[1] == 0x04FD)
  {
    hide *;
    var h := m.Hook(now, count, |words|, words[0] % 0x100);
    HookWords(m, now, count, words);
    if Transfers(words) {
      TransferFits(h, now, count, words, m.core.pause.requested);
    } else {
      PlainFits(h, now, count, words, m.core.pause.requested);
    }
  }

  lemma ExchangeFits(m: Model, now: Millis, count: nat, words: seq<Word>)
    requires 1 <= count <= 8 && 1 <= |words| <= 9
    ensures var d := m.Exchange(now, count, words).regResp;
      Fits(d[..count], count, words, m.core.pause.requested, IsPayload(words) && d[1] == 0x04FD)
  {
    var counterByte, command := words[0] / 0x100, words[0] % 0x100;
    SyncKeepsPause(m.core, counterByte, command);
    HookedFits(m.(core := m.core.SyncCounter(counterByte, command).ForgetSent()), now, count, words);
    hide Core.SyncCounter, Model.Hook, Model.Applied, Fits, IsPayload;
  }

  /**
   * Every answer, whole: what it says in all its registers follows from the frame
   * that asked, whether a pause is requested, the command it carries or the value it
   * asks for, and whether it took a payload.
   */
  lemma {:induction false} AnswerSays(m: Model, now: Millis, raw: seq<Byte>)
    requires Answerable(raw)
    ensures |raw| >= 13 && 1 <= Rd16(raw, 4) <= 8 && 1 <= |Written(raw)| <= 9
    ensures var out := m.OnFrame(now, raw).1;
      Fits(Reading(out), Rd16(raw, 4), Written(raw), m.core.pause.requested,
           IsPayload(Written(raw)) && SaysTaken(out))
  {
    hide *;
    PaysIsPayload(raw);
    AnswerShape(m, now, raw);
    assert |raw| >= 13;
    var h, count, words := m.(core := m.core.Heard(now)), Rd16(raw, 4), Written(raw);
    var d := h.Exchange(now, count, words).regResp;
    HeardKeepsCaps(m.core, now);
    ExchangeFits(h, now, count, words);
    SaysTakenIn(m.OnFrame(now, raw).1, d, count);
    if count == 1 {
      OneRegister(d, words, m.core.pause.requested);
    }
  }

  lemma AnswerShape(m: Model, now: Millis, raw: seq<Byte>)
    requires Answerable(raw) && 1 <= |Written(raw)| <= 9
    ensures |raw| >= 13 && 1 <= Rd16(raw, 4) <= 8
    ensures Reading(m.OnFrame(now, raw).1)
      == m.(core := m.core.Heard(now)).Exchange(now, Rd16(raw, 4), Written(raw)).regResp[..Rd16(raw, 4)]
  {
    AnswerableIsChecked(raw);
    hide Validate, Model.Exchange, CountsAgree, Model.AnswerTo, Core.Heard, Reading;
    AnswerReadsBack(m.(core := m.core.Heard(now)).Exchange(now, Rd16(raw, 4), Written(raw)), raw);
  }

  lemma SaysTakenIn(out: seq<Byte>, d: Answers, count: nat)
    requires count <= 8 && Reading(out) == d[..count]
    ensures SaysTaken(out) <==> count >= 2 && d[1] == 0x04FD
  {
    hide Reading;
  }

  /** An answer of one register shows the count alone. */
  lemma OneRegister(d: Answers, words: seq<Word>, pausing: bool)
    requires 1 <= |words| <= 9
    ensures forall kept, k2 :: Fits(d[..1], 1, words, pausing, kept) ==> Fits(d[..1], 1, words, pausing, k2)
  {
  }
}
