/** The drive and the accessory in one session, frame by frame, as bytes. */
module Session {
  import opened HcpTypes
  import opened Lifecycle
  import opened Hcp2Frame
  import opened Hcp2Model
  import opened Replies
  import opened Runs
  import opened Traffic
  import StopRuns
  import Logged
  import opened DriveRuns

  function PollFrame(counter: Count): seq<Byte> {
    Finished([SLAVE_ID, 0x17, 0x9C, 0xB9, 0x00, 0x08, 0x9C, 0x41, 0x00, 0x02, 0x04, counter, CMD_STATUS, 0x00, 0x00])
  }

  /** A payload the drive writes behind its sub code. */
  function TransferFrame(counterByte: Byte, sub: Byte, payload: seq<Byte>): seq<Byte>
    requires |payload| % 2 == 0 && |payload| <= 14
  {
    Finished([SLAVE_ID, 0x17, 0x9C, 0xB9, 0x00, 0x08, 0x9C, 0x41, 0x00, 2 + |payload| / 2, 4 + |payload|,
              counterByte, CMD_TRANSFER, sub, 0x00] + payload)
  }

  function HalfBit(half: bool, counter: Count): Byte {
    if half then counter + 0x80 else counter
  }

  /** What reaches the accessory: a frame lost on the way is silence, or arrives broken. */
  predicate Reaches(d: Drive, move: Move, act: Act) {
    match move
    case Poll(fate, _) =>
      if fate == RequestLost then Broken(act) else act == Frame(PollFrame(d.counter))
    case Transfer(half, reached) =>
      if reached then IsTransfer(act, HalfBit(half, Succ(d.counter))) else Broken(act)
    case Served => Broken(act)
    case Other => act.Frame? ==> !Answerable(act.raw)
  }

  predicate Broken(act: Act) {
    act.Frame? && !Accepted(act.raw)
  }

  predicate IsTransfer(act: Act, counterByte: Byte) {
    && act.Frame? && |act.raw| >= 17 && |act.raw| % 2 == 1 && |act.raw| <= 31
    && act.raw == TransferFrame(counterByte, act.raw[13], act.raw[15..|act.raw| - 2])
  }

  /** What the drive makes of its move, from the answer as it arrives. */
  predicate Moves(d: Drive, move: Move, answer: seq<Byte>, e: Drive) {
    match move
    case Poll(fate, asks) =>
      && !d.serving
      && (asks <==> fate == Delivered && RequestedBy(answer) != 0)
      && e == (match fate
               case RequestLost => d
               case AnswerLost => d.(missed := true)
               case Delivered => Drive(if asks then d.counter else Succ(d.counter), asks, false))
    case Transfer(_, _) => d.serving && e == d.(counter := Succ(d.counter))
    case Served => d.serving && e == d.(counter := Succ(d.counter), serving := false)
    case Other => e == d
  }

  datatype Session = Session(tape: Recording, moves: seq<Move>, drives: seq<Drive>)

  ghost predicate IsSession(s: Session) {
    && IsRecording(s.tape)
    && |s.moves| == |s.tape.acts| && |s.drives| == |s.moves| + 1
    && s.drives[0] == Drive(1, false, false)
    && forall k :: 0 <= k < |s.moves| ==>
         && Reaches(s.drives[k], s.moves[k], s.tape.acts[k])
         && Moves(s.drives[k], s.moves[k], AnswerAt(s.tape, k), s.drives[k + 1])
  }

  // ----- the frames are what the accessory takes them for -----

  lemma PollIsAnswerable(counter: Count)
    ensures var f := PollFrame(counter);
      && Answerable(f) && f[11] == counter && f[12] == CMD_STATUS
      && IsPoll(Rd16(f, 4), Registers(f, 11, Rd16(f, 8)))
  {
    var body := [SLAVE_ID, 0x17, 0x9C, 0xB9, 0x00, 0x08, 0x9C, 0x41, 0x00, 0x02, 0x04, counter, CMD_STATUS, 0x00, 0x00];
    hide Validate, Finished;
    FinishedIsAccepted(body);
    var f := PollFrame(counter);
    assert f[..15] == body;
    Same(f, body, 15);
    assert f[0] == SLAVE_ID && f[1] == 0x17 && f[10] == 4 && f[11] == counter && f[12] == CMD_STATUS;
    assert Rd16(f, 2) == REG_RESP_BASE && Rd16(f, 4) == 8 && Rd16(f, 6) == REG_CMD_BASE && Rd16(f, 8) == 2;
    hide Registers, PollFrame;
    assert Registers(f, 11, 2)[0] == Rd16(f, 11);
  }

  lemma Same(f: seq<Byte>, body: seq<Byte>, n: nat)
    requires n <= |f| && n <= |body| && f[..n] == body[..n]
    ensures forall i :: 0 <= i < n ==> f[i] == body[i]
  {
    forall i | 0 <= i < n ensures f[i] == body[i] {
      assert f[i] == f[..n][i];
    }
  }

  lemma TransferIsAnswerable(counterByte: Byte, sub: Byte, payload: seq<Byte>)
    requires |payload| % 2 == 0 && |payload| <= 14
    ensures var f := TransferFrame(counterByte, sub, payload);
      && Answerable(f) && f[11] == counterByte && f[12] == CMD_TRANSFER
      && !IsPoll(Rd16(f, 4), Registers(f, 11, Rd16(f, 8)))
  {
    var body := [SLAVE_ID, 0x17, 0x9C, 0xB9, 0x00, 0x08, 0x9C, 0x41, 0x00, 2 + |payload| / 2, 4 + |payload|,
                 counterByte, CMD_TRANSFER, sub, 0x00] + payload;
    hide Validate, Finished;
    FinishedIsAccepted(body);
    var f := TransferFrame(counterByte, sub, payload);
    Same(f, body, |body|);
    assert Registers(f, 11, Rd16(f, 8))[0] == Rd16(f, 11);
  }

  lemma ReachesIsSeen(m: Model, now: Millis, d: Drive, move: Move, act: Act)
    requires Allowed(act) && Reaches(d, move, act)
    ensures var input := Seen(m, now, act);
      match move
      case Poll(fate, _) => input == (if fate == RequestLost then Noise else Exchange(d.counter, CMD_STATUS, true))
      case Transfer(half, reached) =>
        input == (if reached then Exchange(HalfBit(half, Succ(d.counter)), CMD_TRANSFER, false) else Noise)
      case Served => input == Noise
      case Other => !input.Exchange?
  {
    hide Validate, PollFrame, TransferFrame, IsPoll;
    match move
    case Poll(fate, _) =>
      if fate != RequestLost {
        PollIsAnswerable(d.counter);
      }
    case Transfer(half, reached) =>
      if reached {
        TransferIsAnswerable(HalfBit(half, Succ(d.counter)), act.raw[13], act.raw[15..|act.raw| - 2]);
      }
    case Served =>
    case Other =>
  }

  /** Nothing is sent under the name of no command, or of a stop. */
  lemma SentIsReal(r: Run, k: nat)
    requires IsRun(r) && k < |r.inputs| && !SentAt(r, k).Nothing?
    ensures SentAt(r, k).cmd != NoCommand && SentAt(r, k).cmd != Stop
  {
    assert IsStep(r, k);
    if SentAt(r, k).Fresh? {
      FreshComesFromSlot(r.states[k], Shown(r.times[k]), r.inputs[k]);
    } else {
      var f := StopRuns.Origin(r, k);
      assert IsStep(r, f);
      FreshComesFromSlot(r.states[f], Shown(r.times[f]), r.inputs[f]);
      hide Sent;
      CarriedIsBounded(r, k);
      StopRuns.StampHolds(r, k);
    }
  }

  /** An answer that asks for the drive's identity carries no command. */
  lemma RequestCarriesNothing(t: Recording, k: nat)
    requires IsRecording(t) && k < |t.acts| && RequestedBy(AnswerAt(t, k)) != 0
    ensures IsRun(RunOf(t)) && SentAt(RunOf(t), k) == Nothing
  {
    ObeyedIsSent(t, k);
    hide AnswerAt, SentAt, Reading;
    if !SentAt(RunOf(t), k).Nothing? {
      SentIsReal(RunOf(t), k);
      CommandsAreTold(SentAt(RunOf(t), k).cmd, NoCommand);
    }
  }

  ghost function PlayOf(s: Session): Play
    requires IsSession(s)
  {
    Play(RunOf(s.tape), s.moves, s.drives)
  }

  lemma SessionPlays(s: Session, k: nat)
    requires IsSession(s) && k < |s.moves|
    ensures IsRun(RunOf(s.tape))
    ensures Plays(s.drives[k], s.moves[k], RunOf(s.tape).inputs[k], SentAt(RunOf(s.tape), k), s.drives[k + 1])
  {
    hide Reaches, Seen, AnswerAt, SentAt, After, RequestedBy, IsRun;
    var t, r := s.tape, RunOf(s.tape);
    assert Follows(t, k);
    assert Moves(s.drives[k], s.moves[k], AnswerAt(t, k), s.drives[k + 1]);
    hide IsRecording;
    RecordingIsRun(t);
    ReachesIsSeen(t.models[k], Shown(t.times[k]), s.drives[k], s.moves[k], t.acts[k]);
    assert r.inputs[k] == Seen(t.models[k], Shown(t.times[k]), t.acts[k]);
    if s.moves[k].Poll? && s.moves[k].asks {
      RequestCarriesNothing(t, k);
    }
  }

  lemma SessionIsPlay(s: Session)
    requires IsSession(s)
    ensures IsPlay(PlayOf(s))
  {
    RecordingIsRun(s.tape);
    forall k: nat | k < |s.moves|
      ensures Plays(s.drives[k], s.moves[k], RunOf(s.tape).inputs[k], SentAt(RunOf(s.tape), k), s.drives[k + 1])
    {
      SessionPlays(s, k);
    }
    hide IsRun, SentAt, Plays;
  }

  /**
   * Byte for byte, under any loss of requests and answers: the drive is told one
   * taken command at most twice, and what it is told is that command.
   */
  lemma ToldAtMostTwice(s: Session, k: nat)
    requires IsSession(s) && k < |s.moves|
    ensures IsPlay(PlayOf(s)) && Told(PlayOf(s), k + 1) <= 2
    ensures Obeyed(AnswerAt(s.tape, k)) != (0, 0) ==>
      Obeyed(AnswerAt(s.tape, k)) == CommandValues(Taken(RunOf(s.tape), k + 1))
  {
    SessionIsPlay(s);
    ToldIsBounded(PlayOf(s), k + 1);
    Logged.CapsInRun(s.tape);
    if Obeyed(AnswerAt(s.tape, k)) != (0, 0) {
      Logged.WireIsBudgeted(s.tape, k);
    }
    hide IsPlay, Told, Obeyed, AnswerAt, CommandValues, Taken;
  }
}
