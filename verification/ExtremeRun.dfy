/**
 * A session in which everything goes as badly as the bounds allow: one press
 * leaves in five answers and reaches the drive in two of them.
 */
module ExtremeRun {
  import opened HcpTypes
  import opened Lifecycle
  import opened Hcp2Model
  import opened Replies
  import opened Runs
  import opened Traffic
  import opened DriveRuns
  import Logged
  import opened Session

  // ----- what happens -----

  const LATER := 2001

  /**
   * An answered poll brings the link up, and its answer is lost. A press comes in,
   * goes out with the poll that is repeated, and is delivered. The door does not
   * act, so the next poll carries it again; that answer and the two after it are
   * lost, and the last one arrives.
   */
  function ActOf(k: nat): Act
    requires k < 7
  {
    if k == 1 then Call(Press(true, Open)) else Frame(PollFrame(CounterOf(k)))
  }

  function CounterOf(k: nat): Count {
    if k <= 2 then 1 else 2
  }

  function TimeOf(k: nat): nat {
    if k <= 2 then 0 else LATER
  }

  function MoveOf(k: nat): Move {
    if k == 1 then Other else Poll(if k == 2 || k == 6 then Delivered else AnswerLost, false)
  }

  function DriveBefore(k: nat): Drive {
    if k == 0 then Drive(1, false, false)
    else if k <= 2 then Drive(1, false, true)
    else if k == 3 then Drive(2, false, false)
    else if k <= 6 then Drive(2, false, true)
    else Drive(3, false, false)
  }

  lemma ActIsAllowed(k: nat)
    requires k < 7
    ensures Allowed(ActOf(k))
  {
  }

  function ModelOf(k: nat): Model
    requires k <= 7
  {
    if k == 0 then NEW_MODEL
    else
      ActIsAllowed(k - 1);
      After(ModelOf(k - 1), Shown(TimeOf(k - 1)), ActOf(k - 1)).0
  }

  function Tape(): Recording {
    Recording(seq(8, k requires 0 <= k < 8 => ModelOf(k)), seq(7, k requires 0 <= k < 7 => ActOf(k)),
              seq(7, k requires 0 <= k < 7 => TimeOf(k)))
  }

  function Worst(): Session {
    Session(Tape(), seq(7, k requires 0 <= k < 7 => MoveOf(k)), seq(8, k requires 0 <= k < 8 => DriveBefore(k)))
  }

  lemma ModelStep(k: nat)
    requires k < 7
    ensures Allowed(ActOf(k)) && ModelOf(k + 1) == After(ModelOf(k), Shown(TimeOf(k)), ActOf(k)).0
  {
    hide After, ActOf;
    ActIsAllowed(k);
  }

  lemma TapeIsRecording()
    ensures IsRecording(Tape())
  {
    hide After, ActOf, ModelOf;
    var t := Tape();
    forall k: nat | k < 7 ensures Follows(t, k) {
      ModelStep(k);
    }
    FirstModel();
    hide Follows;
  }

  lemma FirstModel()
    ensures ModelOf(0) == NEW_MODEL
  {
  }

  // ----- the states on the way -----

  /** Nothing queued, the door as it was, the counters as the last answer left them. */
  predicate Rung(c: Core, receipt: Receipt, watch: Watch) {
    && c.receipt == receipt && c.watch == watch && c.slot.next == NoCommand && !c.slot.cancelWatch
    && c.caps == HCP2_CAPABILITIES && c.door.state == DoorClosed && c.door.valid
    && !c.pause.requested && c.stateWrites == 0
  }

  lemma RungStays(c: Core, d: Core, receipt: Receipt, watch: Watch)
    requires Quiet(c) == Quiet(d) && Rung(c, receipt, watch)
    ensures Rung(d, receipt, watch)
  {
  }

  const UP := Receipt(2, 1, true)
  const ON := Receipt(3, 2, true)

  const UNUSED := Watch(NoCommand, NoCommand, NoCommand, 0, 0, 0, 0, 0)
  const TAKEN := Watch(Open, NoCommand, Open, 0, 0, 0, 0, 0)

  /** The press has gone out again, for the `n`th time because an answer was lost. */
  function Resent(n: nat): Watch {
    Watch(if n == 0 then Open else NoCommand, NoCommand, Open, 0, LATER, 1, n, 0)
  }

  function Asks(k: nat): Input {
    Exchange(CounterOf(k), CMD_STATUS, true)
  }

  /** A press is in the slot, and all else is as the first poll left it. */
  predicate Queued(c: Core) {
    Rung(c.(slot := c.slot.(next := NoCommand)), UP, UNUSED) && c.slot.next == Open && c.slot.nextOn == 0
  }

  lemma QueuedStays(c: Core, d: Core)
    requires Quiet(c) == Quiet(d) && Queued(c)
    ensures Queued(d)
  {
  }

  /** What an answered poll leaves, put together from what its choice did to the watch. */
  lemma PollLeaves(c: Core, now: Millis, input: Input, receipt: Receipt, watch: Watch)
    requires input.Exchange? && input.poll && Possible(input) && 1 <= input.counterByte <= 0x7F
    requires Rung(c.(slot := c.slot.(next := NoCommand)), c.receipt, c.watch) || Quiet(c) == Quiet(NEW_CORE)
    requires receipt == Receipt(Succ(input.counterByte), input.counterByte, true)
    requires var p := Received(c, input).Poll(now);
      p.watch == watch && p.slot.next == NoCommand && !p.slot.cancelWatch
    ensures Rung(Next(c, now, input), receipt, watch)
  {
    hide Received, Next, Core.Poll;
    AnsweredCounts(c, now, input);
    ExchangeParts(c, now, input);
    ExchangeTouches(c, now, input);
  }

  lemma LinksUp(c: Core)
    requires Quiet(c) == Quiet(NEW_CORE)
    ensures Rung(Next(c, 0, Asks(0)), UP, UNUSED)
  {
    var s := Received(c, Asks(0));
    assert s.watch == UNUSED && s.slot == c.slot;
    NothingIsTaken(s);
    hide Next, Received, Core.Poll;
    PollLeaves(c, 0, Asks(0), UP, UNUSED);
  }

  lemma NothingIsTaken(c: Core)
    requires c.watch == UNUSED && c.slot.next == NoCommand && !c.slot.cancelWatch
    ensures var p := c.Poll(0); p.watch == UNUSED && p.slot == c.slot
  {
  }

  lemma Presses(c: Core)
    requires Rung(c, UP, UNUSED)
    ensures Queued(Next(c, 0, Press(true, Open)))
  {
  }

  lemma Takes(c: Core)
    requires Queued(c)
    ensures Sent(c, 0, Asks(2)) == Fresh(Open) && Rung(Next(c, 0, Asks(2)), UP, TAKEN)
  {
    var s := Received(c, Asks(2));
    assert s.watch == UNUSED && s.slot == c.slot && s.stateWrites == 0;
    OpenIsTaken(s);
    hide Next, Received, Core.Poll, Core.Choose;
    PollLeaves(c, 0, Asks(2), UP, TAKEN);
  }

  lemma OpenIsTaken(c: Core)
    requires c.watch == UNUSED && c.slot.next == Open && c.slot.nextOn == 0 && !c.slot.cancelWatch && c.stateWrites == 0
    ensures c.Choose(0) == Fresh(Open)
    ensures var p := c.Poll(0); p.watch == TAKEN && p.slot.next == NoCommand && !p.slot.cancelWatch
  {
  }

  /** The door has not moved in time: the press goes out again. */
  lemma Repeats(c: Core)
    requires Rung(c, UP, TAKEN)
    ensures Sent(c, LATER, Asks(3)) == Again(Open) && Rung(Next(c, LATER, Asks(3)), ON, Resent(0))
  {
    var s := Received(c, Asks(3));
    assert s.watch == TAKEN.(lastSent := NoCommand) && s.slot == c.slot;
    ReceivedTouches(c, Asks(3));
    UnactedIsRepeated(s);
    hide Next, Received, Core.Poll, Core.Choose;
    PollLeaves(c, LATER, Asks(3), ON, Resent(0));
  }

  lemma UnactedIsRepeated(c: Core)
    requires c.watch == TAKEN.(lastSent := NoCommand) && c.slot.next == NoCommand && !c.slot.cancelWatch
    requires c.stateWrites == 0 && c.door.state == DoorClosed && c.caps == HCP2_CAPABILITIES
    ensures c.Choose(LATER) == Again(Open)
    ensures var p := c.Poll(LATER); p.watch == Resent(0) && p.slot.next == NoCommand && !p.slot.cancelWatch
  {
    assert c.CheckEffect(LATER) == c.(watch := c.watch.(confirmRepeats := 1, repeat := Open));
    hide Core.CheckEffect;
  }

  /** The answer was lost: the press goes out once more. */
  lemma Resends(c: Core, n: nat)
    requires n < 3 && Rung(c, ON, Resent(n))
    ensures Sent(c, LATER, Asks(4)) == Again(Open) && Rung(Next(c, LATER, Asks(4)), ON, Resent(n + 1))
  {
    var s := Received(c, Asks(4));
    assert s.watch == Resent(n + 1).(lastSent := NoCommand, repeat := Open) && s.slot == c.slot;
    ReceivedTouches(c, Asks(4));
    LostIsRepeated(s, n + 1);
    hide Next, Received, Core.Poll, Core.Choose;
    PollLeaves(c, LATER, Asks(4), ON, Resent(n + 1));
  }

  lemma LostIsRepeated(c: Core, n: nat)
    requires 1 <= n <= 3 && c.watch == Resent(n).(lastSent := NoCommand, repeat := Open)
    requires c.slot.next == NoCommand && !c.slot.cancelWatch && c.stateWrites == 0 && c.door.state == DoorClosed
    ensures c.Choose(LATER) == Again(Open)
    ensures var p := c.Poll(LATER); p.watch == Resent(n) && p.slot.next == NoCommand && !p.slot.cancelWatch
  {
    assert c.CheckEffect(LATER) == c;
    hide Core.CheckEffect;
  }

  // ----- as a session -----

  lemma PollIsSeen(m: Model, now: Millis, k: nat)
    requires k < 7 && k != 1
    ensures Seen(m, now, ActOf(k)) == Asks(k)
  {
    hide PollFrame;
    ReachesIsSeen(m, now, Drive(CounterOf(k), false, false), Poll(AnswerLost, false), ActOf(k));
  }

  function InputOf(k: nat): Input
    requires k < 7
  {
    if k == 1 then Press(true, Open) else Asks(k)
  }

  lemma InputsAre(k: nat)
    requires k < 7
    ensures IsRecording(Tape()) && IsRun(RunOf(Tape()))
    ensures var r := RunOf(Tape());
      && |r.states| == 8 && |r.inputs| == 7 && r.inputs[k] == InputOf(k) && r.times[k] == TimeOf(k)
      && Possible(InputOf(k)) && Quiet(r.states[k + 1]) == Quiet(Next(r.states[k], Shown(TimeOf(k)), InputOf(k)))
  {
    hide ModelOf, After, Next, Quiet, StateIn, IsRecording;
    TapeIsRecording();
    RecordingIsRun(Tape());
    var t, r := Tape(), RunOf(Tape());
    assert IsStep(r, k);
    if k == 1 {
      assert ActOf(k) == Call(Press(true, Open));
    } else {
      PollIsSeen(t.models[k], Shown(t.times[k]), k);
      hide ActOf, Seen;
    }
    assert r.inputs[k] == Seen(t.models[k], Shown(t.times[k]), t.acts[k]);
  }

  /** The state before each step, as far as it matters. */
  predicate Stands(c: Core, k: nat) {
    match k
    case 0 => Quiet(c) == Quiet(NEW_CORE)
    case 1 => Rung(c, UP, UNUSED)
    case 2 => Queued(c)
    case 3 => Rung(c, UP, TAKEN)
    case _ => 4 <= k <= 7 && Rung(c, ON, Resent(k - 4))
  }

  function SentOf(k: nat): Choice {
    if k < 2 then Nothing else if k == 2 then Fresh(Open) else Again(Open)
  }

  lemma OneStep(c: Core, k: nat)
    requires k < 7 && Stands(c, k) && Possible(InputOf(k))
    ensures Stands(Next(c, Shown(TimeOf(k)), InputOf(k)), k + 1)
    ensures k >= 2 ==> Sent(c, Shown(TimeOf(k)), InputOf(k)) == SentOf(k)
  {
    hide Next, Sent, Rung, Queued, Quiet;
    if k == 0 {
      LinksUp(c);
    } else if k == 1 {
      Presses(c);
    } else if k == 2 {
      Takes(c);
    } else if k == 3 {
      Repeats(c);
    } else {
      Resends(c, k - 4);
    }
  }

  lemma StandsStays(c: Core, d: Core, k: nat)
    requires Quiet(c) == Quiet(d) && Stands(c, k)
    ensures Stands(d, k)
  {
    hide Rung, Queued, Quiet;
    if k == 0 {
    } else if k == 1 {
      RungStays(c, d, UP, UNUSED);
    } else if k == 2 {
      QueuedStays(c, d);
    } else if k == 3 {
      RungStays(c, d, UP, TAKEN);
    } else {
      RungStays(c, d, ON, Resent(k - 4));
    }
  }

  lemma FirstStands()
    ensures IsRecording(Tape()) && IsRun(RunOf(Tape())) && |RunOf(Tape()).states| == 8
    ensures Stands(RunOf(Tape()).states[0], 0)
  {
    hide ModelOf, ActOf, Next, StateIn, InputIn, IsRecording, IsStep, Quiet;
    InputsAre(0);
    Logged.CapsInRun(Tape());
    SameCaps(RunOf(Tape()).states[0].caps);
  }

  lemma SameCaps(caps: Capabilities)
    requires caps == HCP2_CAPABILITIES
    ensures NEW_CORE.(caps := caps) == NEW_CORE
  {
  }

  lemma {:induction false} AlwaysStands(k: nat)
    requires k <= 7
    ensures IsRecording(Tape()) && IsRun(RunOf(Tape())) && |RunOf(Tape()).states| == 8
    ensures Stands(RunOf(Tape()).states[k], k)
  {
    hide *;
    if k == 0 {
      FirstStands();
    } else {
      AlwaysStands(k - 1);
      InputsAre(k - 1);
      var c := RunOf(Tape()).states[k - 1];
      OneStep(c, k - 1);
      StandsStays(Next(c, Shown(TimeOf(k - 1)), InputOf(k - 1)), RunOf(Tape()).states[k], k);
    }
  }

  lemma SentIs(k: nat)
    requires 2 <= k < 7
    ensures IsRecording(Tape()) && IsRun(RunOf(Tape())) && |RunOf(Tape()).inputs| == 7
    ensures SentAt(RunOf(Tape()), k) == SentOf(k)
  {
    hide IsRecording, IsRun, Tape, RunOf, Sent, Stands, Next, Quiet, InputOf, SentOf, TimeOf;
    AlwaysStands(k);
    InputsAre(k);
    OneStep(RunOf(Tape()).states[k], k);
  }

  /** An answer with a command in it asks for nothing. */
  lemma CommandAsksNothing(answer: seq<Byte>)
    requires Obeyed(answer) != (0, 0)
    ensures RequestedBy(answer) == 0
  {
    hide Reading;
  }

  lemma AnswerTells(k: nat)
    requires 2 <= k < 7
    ensures IsRecording(Tape()) && |Tape().acts| == 7
    ensures Obeyed(AnswerAt(Tape(), k)) == CommandValues(Open) && RequestedBy(AnswerAt(Tape(), k)) == 0
  {
    hide IsRecording, IsRun, RunOf, SentAt, AnswerAt, Obeyed, RequestedBy, ActOf, ModelOf;
    SentIs(k);
    ObeyedIsSent(Tape(), k);
    CommandAsksNothing(AnswerAt(Tape(), k));
  }

  lemma WorstMoves(k: nat)
    requires k < 7
    ensures IsRecording(Tape()) && |Tape().acts| == 7
    ensures Reaches(DriveBefore(k), MoveOf(k), Tape().acts[k])
    ensures Moves(DriveBefore(k), MoveOf(k), AnswerAt(Tape(), k), DriveBefore(k + 1))
  {
    hide IsRecording, AnswerAt, RequestedBy, PollFrame, ModelOf;
    TapeIsRecording();
    if k == 2 || k == 6 {
      AnswerTells(k);
    }
  }

  lemma WorstIsSession()
    ensures IsSession(Worst())
  {
    hide IsRecording, AnswerAt, Reaches, Moves, ModelOf, ActOf, MoveOf;
    TapeIsRecording();
    var s := Worst();
    assert s.drives[0] == Drive(1, false, false);
    hide DriveBefore;
    forall k: nat | k < 7
      ensures Reaches(s.drives[k], s.moves[k], s.tape.acts[k])
      ensures Moves(s.drives[k], s.moves[k], AnswerAt(s.tape, k), s.drives[k + 1])
    {
      WorstMoves(k);
    }
  }

  lemma WorstShape()
    ensures IsSession(Worst()) && IsRecording(Tape())
    ensures var p := PlayOf(Worst());
      && IsPlay(p) && IsRun(RunOf(Tape())) && |p.run.inputs| == 7
      && p.run == RunOf(Tape()) && |p.moves| == 7 && |p.drives| == 8 && |p.run.states| == 8
      && forall k :: 0 <= k < 7 ==> p.moves[k] == MoveOf(k)
  {
    hide IsSession, IsRecording, MoveOf, DriveBefore, ModelOf, ActOf, StateIn, InputIn;
    WorstIsSession();
    TapeIsRecording();
    SessionIsPlay(Worst());
    hide IsPlay, IsRun;
  }

  lemma ToldGrows(p: Play, k: nat)
    requires IsPlay(p) && k < |p.moves| && |p.drives| == |p.moves| + 1 && IsRun(p.run) && |p.run.inputs| == |p.moves|
    ensures Told(p, k + 1) == ToldNow(SentAt(p.run, k), p.moves[k], Told(p, k))
  {
    hide IsPlay, IsRun, SentAt, ToldNow;
  }

  lemma CarriedGrows(r: Run, k: nat)
    requires IsRun(r) && k < |r.inputs| && |r.states| == |r.inputs| + 1
    ensures Carried(r, k + 1) == CarriedNow(SentAt(r, k), Carried(r, k))
  {
    hide IsRun, SentAt;
  }

  lemma CountsOn(k: nat, told: nat, carried: nat)
    requires 2 <= k < 7 && (k > 2 ==> told == 1 && carried == k - 2)
    ensures ToldNow(SentOf(k), MoveOf(k), told) == (if k == 6 then 2 else 1)
    ensures CarriedNow(SentOf(k), carried) == k - 1
  {
  }

  lemma {:induction false} WorstCounts(k: nat)
    requires 2 <= k < 7
    ensures IsSession(Worst()) && IsPlay(PlayOf(Worst())) && IsRun(RunOf(Tape()))
    ensures |PlayOf(Worst()).drives| == 8 && |RunOf(Tape()).states| == 8
    ensures Told(PlayOf(Worst()), k + 1) == (if k == 6 then 2 else 1) && Carried(RunOf(Tape()), k + 1) == k - 1
  {
    hide *;
    WorstIsSession();
    SessionIsPlay(Worst());
    SentIs(k);
    WorstShape();
    var p, r := PlayOf(Worst()), RunOf(Tape());
    if k > 2 {
      WorstCounts(k - 1);
    }
    ToldGrows(p, k);
    CarriedGrows(r, k);
    CountsOn(k, Told(p, k), Carried(r, k));
  }

  /**
   * Neither bound can be lowered: at the end of this session one press has gone out
   * five times and reached the drive twice.
   */
  lemma {:induction false} BoundsAreReached()
    ensures exists s, k: nat ::
      && IsSession(s) && k < |s.moves| && IsPlay(PlayOf(s)) && IsRun(RunOf(s.tape))
      && Told(PlayOf(s), k + 1) == 2 && Carried(RunOf(s.tape), k + 1) == 5
      && Obeyed(AnswerAt(s.tape, k)) == CommandValues(Open)
  {
    hide IsSession, IsPlay, IsRun, RunOf, PlayOf, Told, Carried, AnswerAt, Obeyed, CommandValues, ModelOf, ActOf;
    WorstCounts(6);
    AnswerTells(6);
    var s := Worst();
    assert s.tape == Tape() && |s.moves| == 7;
    assert Told(PlayOf(s), 6 + 1) == 2;
  }
}
