/**
 * What an announced pause leaves open: between the drop and the request the bus
 * can store a stop of its own, and that stop outlives the pause. Exactly what is
 * queued when the pause is requested can.
 */
module PauseGap {
  import opened HcpTypes
  import opened Lifecycle
  import opened Runs
  import opened StopRuns
  import GotoRuns

  function Poll(counter: Byte): Input {
    Exchange(counter, CMD_STATUS, true)
  }

  // ----- with an empty queue nothing outlives the pause -----

  /** A pause requested with an empty slot keeps it empty. */
  lemma {:induction false} StaysEmpty(r: Run, j: nat, p: nat, m: nat)
    requires IsRun(r) && PausePolled(r, j, p) && j <= m <= p + 1 && r.states[j].slot.next == NoCommand
    ensures r.states[m].slot.next == NoCommand
  {
    hide Next, Filled, SentAt;
    if m > j {
      StaysEmpty(r, j, p, m - 1);
      assert IsStep(r, m - 1);
      StepSlot(r.states[m - 1], Shown(r.times[m - 1]), r.inputs[m - 1]);
      if m - 1 > j {
        PauseLasts(r, j, p, m - 1);
      } else {
        RequestPauses(r.states[j], Shown(r.times[j]));
      }
    }
  }

  /** A slot found empty has to be filled before anything new comes out of it. */
  lemma {:induction false} FilledSince(r: Run, m: nat, k: nat)
    requires IsRun(r) && m <= k < |r.states|
    requires r.states[m].slot.next == NoCommand && r.states[k].slot.next != NoCommand
    ensures LastFill(r, k) >= m
  {
    hide Next, Filled;
    if k > m {
      assert IsStep(r, k - 1);
      StepSlot(r.states[k - 1], Shown(r.times[k - 1]), r.inputs[k - 1]);
      if FilledAt(r, k - 1).None? {
        FilledSince(r, m, k - 1);
      }
    }
  }

  /**
   * With nothing queued when the pause is requested, whatever goes out after a
   * status poll of that pause was asked for, and taken, after that poll.
   */
  lemma {:induction false} EmptyQueueEndsEverything(r: Run, j: nat, p: nat, k: nat)
    requires IsRun(r) && PausePolled(r, j, p) && p < k < |r.inputs| && !SentAt(r, k).Nothing?
    requires r.states[j].slot.next == NoCommand
    ensures Origin(r, k) > p && Asked(r, k) > p
  {
    hide IsRun, SentAt, FilledAt, PausePolled, Origin;
    PollEndsTheWatch(r, j, p, k);
    PollIsIn(r, j, p);
    StaysEmpty(r, j, p, p + 1);
    OnlyTheSlotIsFresh(r, Origin(r, k));
    FilledSince(r, p + 1, Origin(r, k));
  }

  lemma PollIsIn(r: Run, j: nat, p: nat)
    requires IsRun(r) && PausePolled(r, j, p)
    ensures j < p < |r.inputs| && |r.states| == |r.inputs| + 1
  {
    hide IsStep;
  }

  /** A drop with nothing accepted between it and the request leaves the queue empty. */
  lemma {:induction false} QuietGapLeavesNothing(r: Run, i: nat, j: nat)
    requires IsRun(r) && i < j < |r.states| && r.inputs[i] == DropQueued
    requires forall m :: i < m < j ==> FilledAt(r, m).None?
    ensures r.states[j].slot.next == NoCommand
  {
    hide Filled, Next, IsStep;
    DroppedStaysDropped(r, i, j);
    LastFillIs(r, j);
    SlotHolds(r, j);
  }

  // ----- with anything queued, something can -----

  /** `q` is what `r` came to later. */
  predicate Extends(r: Run, q: Run) {
    r.states <= q.states && r.inputs <= q.inputs && r.times <= q.times
  }

  /** One step more. */
  lemma Further(r: Run, input: Input, t: nat) returns (q: Run)
    requires IsRun(r) && Possible(input) && forall i :: 0 <= i < |r.times| ==> r.times[i] <= t
    ensures IsRun(q) && |r.states| > 0
    ensures q.inputs == r.inputs + [input] && q.times == r.times + [t]
    ensures q.states == r.states + [Next(r.states[|r.states| - 1], Shown(t), input)]
  {
    hide Next, Quiet;
    q := Run(r.states + [Next(r.states[|r.states| - 1], Shown(t), input)], r.inputs + [input], r.times + [t]);
    forall k | 0 <= k < |q.inputs| ensures IsStep(q, k) {
      if k < |r.inputs| {
        assert IsStep(r, k);
      }
    }
  }

  /** The moment of the last step, 0 where there has been none. */
  function LastTime(r: Run): nat {
    if r.times == [] then 0 else r.times[|r.times| - 1]
  }

  lemma NothingIsLater(r: Run)
    requires IsRun(r)
    ensures forall i :: 0 <= i < |r.times| ==> r.times[i] <= LastTime(r)
  {
    hide IsStep, Quiet;
  }

  /** A telegram that says the door travels, in whichever direction it did not report last, and nothing else new. */
  function Starts(c: Core): seq<Word> {
    [c.bcast[0], c.bcast[1], if c.bcast[2] / 0x100 == 0x01 then 0x0200 else 0x0100]
  }

  /** Requested, polled and ended, the pause leaves the slot as it was; the door has meanwhile begun to travel. */
  lemma PausePasses(c: Core, now: Millis)
    requires GotoRuns.Settled(c)
    ensures var b := Next(c, now, RequestPause);
      var d := Next(b, now, Report(Starts(b)));
      var e := Next(d, now, Poll(1));
      var f := Next(e, now, EndPause);
      && f.slot == c.slot && IsMoving(f.door.state) && !f.pause.requested
  {
    var b := c.RequestPause();
    assert Next(c, now, RequestPause) == b by {
      RequestIs(c, now);
    }
    hide Received, Next, Core.Report, Filled;
    GotoRuns.ReportStopsIff(b, now, Starts(b));
    GotoRuns.ReportIs(b, now, Report(Starts(b)));
    var d := Next(b, now, Report(Starts(b)));
    assert d.slot == c.slot && IsMoving(d.door.state) && d.pause.requested by {
      StartsMoving(b);
    }
    ExchangeParts(d, now, Poll(1));
    ReceivedTouches(d, Poll(1));
    EndsPause(Next(d, now, Poll(1)), now);
  }

  lemma RequestIs(c: Core, now: Millis)
    ensures Next(c, now, RequestPause) == c.RequestPause()
  {
  }

  lemma StartsMoving(c: Core)
    ensures IsMoving(GotoRuns.StateAfter(GotoRuns.BearingOf(c), GotoRuns.WordIn(c, Starts(c))))
    ensures GotoRuns.PositionIn(c, Starts(c)) == c.bcast[1]
  {
  }

  /**
   * What waits in the slot, and is not stale, goes out with the next poll: a stop as
   * an impulse, where the door travels.
   */
  lemma WaitingGoesOut(c: Core, now: Millis, input: Input)
    requires input.Exchange? && input.poll && Possible(input) && !c.pause.requested
    requires c.slot.next != NoCommand && Elapsed(now, c.slot.nextOn) <= CMD_STALE_MS
    requires c.slot.next == Stop ==> IsMoving(c.door.state)
    ensures Sent(c, now, input) == Fresh(Meant(c.slot.next))
  {
    hide Received, Core.CheckEffect, Elapsed;
    ReceivedTouches(c, input);
    EffectSlot(Received(c, input), now);
  }

  lemma EffectSlot(c: Core, now: Millis)
    ensures c.CheckEffect(now).slot == c.slot && c.CheckEffect(now).door.state == c.door.state
  {
    hide Elapsed, Core.TookEffect;
  }

  lemma EndsPause(c: Core, now: Millis)
    ensures Next(c, now, EndPause) == c.EndPause()
  {
  }

  /** The first moment from `t` on at which the clock shows what it showed when the slot was filled. */
  function TurnOfTheClock(t: nat, shown: Millis): (u: nat)
    ensures u >= t && Shown(u) == shown
  {
    (t / CLOCK_SPAN + 1) * CLOCK_SPAN + shown
  }

  /**
   * In `q`, which goes on from `r` with a request of the pause, something goes out at
   * `k` although a status poll of that pause was answered at `p`, and it was asked for
   * by then.
   */
  ghost predicate Outlives(r: Run, q: Run, p: nat, k: nat) {
    && IsRun(q) && Extends(r, q) && PausePolled(q, |r.inputs|, p)
    && p < k < |q.inputs| && !SentAt(q, k).Nothing? && Asked(q, k) <= p
  }

  /** A run with something queued goes on with a pause, a door that begins to travel, and one poll more. */
  lemma {:induction false} GoesOn(r: Run) returns (q: Run)
    requires IsRun(r) && |r.states| == |r.inputs| + 1 && r.states[|r.inputs|].slot.next != NoCommand
    ensures IsRun(q) && Extends(r, q) && |q.inputs| == |r.inputs| + 5
    ensures var j := |r.inputs|;
      && q.inputs[j] == RequestPause && q.inputs[j + 1].Report? && q.inputs[j + 2] == Poll(1)
      && q.inputs[j + 3] == EndPause && q.inputs[j + 4] == Poll(2)
      && SentAt(q, j + 4) == Fresh(Meant(r.states[j].slot.next))
  {
    hide Next, Sent, IsRun, Elapsed, PausePolled;
    var j, c := |r.inputs|, r.states[|r.inputs|];
    var now := c.slot.nextOn;
    var u := TurnOfTheClock(LastTime(r), now);
    NothingIsLater(r);
    GotoRuns.SettledAlways(r, j);
    PausePasses(c, now);
    RunShape(r);
    var q1 := Further(r, RequestPause, u);
    var q2 := Further(q1, Report(Starts(q1.states[j + 1])), u);
    var q3 := Further(q2, Poll(1), u);
    var q4 := Further(q3, EndPause, u);
    NowIsFresh(now);
    WaitingGoesOut(q4.states[j + 4], now, Poll(2));
    q := Further(q4, Poll(2), u);
    assert q.times[j + 4] == u && q.states[j + 4] == q4.states[j + 4];
  }

  lemma NowIsFresh(now: Millis)
    ensures Elapsed(now, now) == 0
  {
  }

  lemma NothingAccepted(q: Run, j: nat, m: nat)
    requires IsRun(q) && PausePolled(q, j, j + 2) && j + 4 < |q.inputs| && q.inputs[j + 3] == EndPause
    requires j <= m < j + 4
    ensures FilledAt(q, m) == None
  {
    hide Next, Filled, Sent;
    if m == j {
      RequestPauses(q.states[j], 0);
    } else if m <= j + 2 {
      PauseLasts(q, j, j + 2, m);
    } else {
      OnlyCallsFill(q.states[m]);
    }
  }

  lemma OnlyCallsFill(c: Core)
    ensures Filled(c, EndPause) == None
  {
  }

  lemma AskedBefore(q: Run, j: nat)
    requires IsRun(q) && PausePolled(q, j, j + 2) && j + 4 < |q.inputs| && q.inputs[j + 3] == EndPause
    requires SentAt(q, j + 4).Fresh?
    ensures Asked(q, j + 4) < j
  {
    hide IsRun, PausePolled, SentAt, FilledAt;
    forall m | j <= m < j + 4 ensures FilledAt(q, m) == None {
      NothingAccepted(q, j, m);
    }
    AskedIsFill(q, j + 4);
    hide Asked;
  }

  lemma AskedIsFill(r: Run, k: nat)
    requires IsRun(r) && k < |r.inputs| && !SentAt(r, k).Nothing?
    ensures FilledAt(r, Asked(r, k)).Some? && Asked(r, k) < k
  {
    hide IsRun, SentAt, FilledAt, Asked;
  }

  /**
   * The exact condition: whatever a run came to, nothing asked for so far will ever
   * outlive a pause requested now if and only if the queue is empty now. Anything
   * else in it, be it stale or a stop for a standing door, goes out in some
   * continuation: the door may start, and the clock may come round.
   */
  lemma {:induction false} PauseEndsEverythingIff(r: Run)
    requires IsRun(r)
    ensures |r.states| == |r.inputs| + 1
    ensures r.states[|r.inputs|].slot.next == NoCommand <==> !exists q, p, k :: Outlives(r, q, p, k)
  {
    hide IsRun, SentAt, Asked, PausePolled;
    RunShape(r);
    var j := |r.inputs|;
    if r.states[j].slot.next == NoCommand {
      forall q, p, k ensures !Outlives(r, q, p, k) {
        if Outlives(r, q, p, k) {
          EmptyQueueEndsEverything(q, j, p, k);
        }
      }
    } else {
      var q := GoesOn(r);
      IsPolled(q, j);
      AskedBefore(q, j);
      assert Outlives(r, q, j + 2, j + 4);
    }
  }

  lemma IsPolled(q: Run, j: nat)
    requires IsRun(q) && j + 4 < |q.inputs| && q.inputs[j] == RequestPause
    requires q.inputs[j + 1].Report? && q.inputs[j + 2] == Poll(1)
    ensures PausePolled(q, j, j + 2)
  {
    hide IsRun;
  }

  // ----- a run that uses the gap -----

  const CLOSER: seq<Word> := [0, 10, 0x0100]
  const THERE: seq<Word> := [0, 100, 0x0100]

  /**
   * A poll brings the link up, a go-to press goes out with the next, a telegram says
   * that the door opens; then the slot is dropped, a telegram arrives at the target,
   * the pause is requested, polled and ended, and one more poll follows.
   */
  const INPUTS: seq<Input> :=
    [Poll(1), GoTo(50), Poll(2), Report(CLOSER), DropQueued, Report(THERE), RequestPause, Poll(3), EndPause, Poll(4)]

  function StateAfter(k: nat): Core
    requires k <= 10
  {
    if k == 0 then NEW_CORE
    else
      PossibleInputs(k - 1);
      Next(StateAfter(k - 1), 0, INPUTS[k - 1])
  }

  lemma PossibleInputs(k: nat)
    requires k < 10
    ensures Possible(INPUTS[k])
  {
  }

  function GapRun(): Run {
    Run(seq(11, k requires 0 <= k < 11 => StateAfter(k)), INPUTS, seq(10, k requires 0 <= k < 10 => 0))
  }

  lemma StateStep(k: nat)
    requires k < 10
    ensures Possible(INPUTS[k]) && StateAfter(k + 1) == Next(StateAfter(k), 0, INPUTS[k])
  {
    hide Next;
    PossibleInputs(k);
  }

  lemma GapIsRun()
    ensures IsRun(GapRun())
  {
    hide Next, StateAfter, Quiet;
    var r := GapRun();
    forall k: nat | k < 10 ensures IsStep(r, k) {
      StateStep(k);
    }
    hide IsStep;
    StartIsNew();
  }

  lemma StartIsNew()
    ensures Quiet(StateAfter(0)) == Quiet(NEW_CORE.(caps := StateAfter(0).caps))
  {
  }

  // ----- the states on the way, as far as they matter -----

  /** The link is up, no pause stands, and the report registers are settled. */
  predicate Up(c: Core, state: DoorState, goto: nat) {
    && c.door.valid && !c.pause.requested && GotoRuns.Settled(c)
    && c.door.state == state && c.door.goto == goto && c.caps.hasPosition
  }

  lemma LinkComesUp(c: Core)
    requires c == NEW_CORE
    ensures var d := Next(c, 0, Poll(1));
      Up(d, DoorClosed, 0) && d.slot.next == NoCommand && d.door.current == 0 && d.bcast == NO_REPORT
  {
    hide Next, Received, Core.Poll;
    FirstReceived();
    var s := Received(NEW_CORE, Poll(1));
    ReceivedTouches(c, Poll(1));
    NothingToTake(s);
    GotoRuns.ExchangeReport(c, 0, Poll(1));
    ExchangeTouches(c, 0, Poll(1));
    ExchangeParts(c, 0, Poll(1));
    ExchangeGoto(c, 0, Poll(1));
  }

  lemma FirstReceived()
    ensures Received(NEW_CORE, Poll(1)).watch == NEW_CORE.watch
  {
  }

  /** A poll that finds neither a command nor a watch leaves slot and target alone. */
  lemma NothingToTake(c: Core)
    requires c.slot.next == NoCommand && c.watch.awaited == NoCommand && c.watch.repeat == NoCommand
    ensures c.Poll(0).slot.next == NoCommand && c.Poll(0).door.goto == c.door.goto
  {
  }

  lemma GoToIsTaken(c: Core)
    requires Up(c, DoorClosed, 0) && c.slot.next == NoCommand && c.door.current == 0 && c.bcast == NO_REPORT
    ensures var d := Next(c, 0, GoTo(50));
      && Up(d, DoorClosed, 0) && d.slot.next == Open && d.slot.nextOn == 0 && d.slot.gotoRequest == 50
      && d.door.current == 0 && d.bcast == NO_REPORT
  {
  }

  /** A poll that takes a command arms the target that came with it. */
  lemma TakenArms(c: Core, now: Millis)
    requires c.Choose(now).Fresh? && c.slot.gotoRequest >= 0
    ensures c.Poll(now).door.goto == c.slot.gotoRequest
  {
    hide Elapsed, Core.TookEffect, Core.RepeatStillMakesSense;
  }

  /** What waits in the slot, and is not stale, goes out. */
  lemma WaitingIsFresh(c: Core, input: Input)
    requires input.Exchange? && c.slot.nextOn == 0
    ensures c.slot.next == Open ==> Received(c, input).Choose(0) == Fresh(Open)
    ensures c.slot.next == Stop && c.door.state == Opening ==> Received(c, input).Choose(0) == Fresh(Impulse)
  {
    hide Received, Core.CheckEffect;
    ReceivedTouches(c, input);
    EffectSlot(Received(c, input), 0);
  }

  lemma ExchangeGoto(c: Core, now: Millis, input: Input)
    requires input.Exchange? && input.poll && Possible(input) && !c.pause.requested
    ensures Next(c, now, input).door.goto == Received(c, input).Poll(now).door.goto
  {
    hide Received, Core.Poll;
    ReceivedTouches(c, input);
  }

  lemma TargetIsArmed(c: Core)
    requires Up(c, DoorClosed, 0) && c.slot.next == Open && c.slot.nextOn == 0 && c.slot.gotoRequest == 50
    requires c.door.current == 0 && c.bcast == NO_REPORT
    ensures var d := Next(c, 0, Poll(2)); Up(d, DoorClosed, 50) && d.door.current == 0 && d.bcast == NO_REPORT
  {
    hide Next, Received, Core.Poll, Core.Choose;
    WaitingIsFresh(c, Poll(2));
    ReceivedTouches(c, Poll(2));
    TakenArms(Received(c, Poll(2)), 0);
    GotoRuns.ExchangeReport(c, 0, Poll(2));
    ExchangeTouches(c, 0, Poll(2));
    ExchangeParts(c, 0, Poll(2));
    ExchangeGoto(c, 0, Poll(2));
  }

  lemma ReportNext(c: Core, words: seq<Word>)
    requires |words| <= 9
    ensures var d := Next(c, 0, Report(words));
      d == c.Report(0, words) && d.door.valid && d.caps == c.caps
  {
    ReportTouches(c.LinkUp(), words, 0);
    hide Core.WriteFrom;
  }

  lemma DoorOpens(c: Core)
    requires Up(c, DoorClosed, 50) && c.door.current == 0 && c.bcast == NO_REPORT
    ensures var d := Next(c, 0, Report(CLOSER)); Up(d, Opening, 50) && d.bcast[2] == 0x0100 && d.door.current == 10
  {
    hide Next, Filled, Core.Report;
    GotoRuns.ReportStopsIff(c, 0, CLOSER);
    ReportNext(c, CLOSER);
  }

  lemma SlotIsDropped(c: Core)
    requires Up(c, Opening, 50) && c.bcast[2] == 0x0100 && c.door.current == 10
    ensures var d := Next(c, 0, DropQueued); Up(d, Opening, 50) && d.bcast[2] == 0x0100 && d.door.current == 10
  {
  }

  /** The stop of the bus's own, between drop and request. */
  lemma StopIsStored(c: Core)
    requires Up(c, Opening, 50) && c.bcast[2] == 0x0100 && c.door.current == 10
    ensures Filled(c, Report(THERE)) == Some(Stop)
    ensures var d := Next(c, 0, Report(THERE)); Up(d, Opening, 0) && d.slot.next == Stop && d.slot.nextOn == 0
  {
    hide Next, Filled, Core.Report;
    GotoRuns.ReportStopsIff(c, 0, THERE);
    ReportNext(c, THERE);
  }

  /** A stop that was stored is still there after the pause. */
  lemma StopOutlivesPause(c: Core)
    requires c.slot.next == Stop && c.slot.nextOn == 0 && c.door.state == Opening
    ensures var d := Next(Next(Next(c, 0, RequestPause), 0, Poll(3)), 0, EndPause);
      d.slot.next == Stop && d.slot.nextOn == 0 && d.door.state == Opening && !d.pause.requested
  {
    var b := Next(c, 0, RequestPause);
    assert b == c.RequestPause();
    ExchangeParts(b, 0, Poll(3));
    ReceivedTouches(b, Poll(3));
    EndsPause(Next(b, 0, Poll(3)), 0);
    hide Received, Next;
  }

  lemma StopIsSent(c: Core)
    requires c.slot.next == Stop && c.slot.nextOn == 0 && c.door.state == Opening && !c.pause.requested
    ensures Sent(c, 0, Poll(4)) == Fresh(Impulse)
  {
    WaitingIsFresh(c, Poll(4));
    hide Received, Core.Choose;
  }

  lemma ToTheDrop() returns (c: Core)
    ensures c == StateAfter(5) && Up(c, Opening, 50) && c.bcast[2] == 0x0100 && c.door.current == 10
  {
    hide StateAfter, Next, Up;
    FirstState();
    c := StateAfter(0);
    LinkComesUp(c);
    StateStep(0);
    c := StateAfter(1);
    GoToIsTaken(c);
    StateStep(1);
    c := StateAfter(2);
    TargetIsArmed(c);
    StateStep(2);
    c := StateAfter(3);
    DoorOpens(c);
    StateStep(3);
    c := StateAfter(4);
    SlotIsDropped(c);
    StateStep(4);
    c := StateAfter(5);
  }

  lemma TheWay()
    ensures Filled(StateAfter(5), Report(THERE)) == Some(Stop)
    ensures Sent(StateAfter(9), 0, Poll(4)) == Fresh(Impulse)
  {
    hide StateAfter, Next, Filled, Sent, Up;
    var c := ToTheDrop();
    StopIsStored(c);
    StateStep(5);
    UpOpening(StateAfter(6));
    StopOutlivesPause(StateAfter(6));
    StateStep(6);
    StateStep(7);
    StateStep(8);
    StopIsSent(StateAfter(9));
  }

  lemma FirstState()
    ensures StateAfter(0) == NEW_CORE
  {
  }

  lemma UpOpening(c: Core)
    requires Up(c, Opening, 0)
    ensures c.door.state == Opening
  {
  }

  lemma OnlyTheReportFills(c: Core)
    ensures Filled(c, RequestPause) == None && Filled(c, Poll(3)) == None && Filled(c, EndPause) == None
  {
  }

  /**
   * The gap is real: in this run the impulse that goes out with the last poll was
   * asked for by a stop stored between the drop and the request of the pause.
   */
  lemma {:induction false} AStopSlipsThrough()
    ensures IsRun(GapRun()) && PausePolled(GapRun(), 6, 7) && GapRun().inputs[4] == DropQueued
    ensures SentAt(GapRun(), 9) == Fresh(Impulse) && 4 < Asked(GapRun(), 9) < 6
  {
    hide StateAfter, Next, Filled, Sent, Asked, Origin;
    GapIsRun();
    TheWay();
    var r := GapRun();
    TheGap(r);
  }

  lemma TheGap(r: Run)
    requires IsRun(r) && r.inputs == INPUTS && SentAt(r, 9) == Fresh(Impulse) && FilledAt(r, 5) == Some(Stop)
    ensures PausePolled(r, 6, 7) && Asked(r, 9) == 5
  {
    hide Next, Filled, Sent;
    OnlyTheReportFills(r.states[6]);
    OnlyTheReportFills(r.states[7]);
    OnlyTheReportFills(r.states[8]);
    assert LastFill(r, 6) == 5 && LastFill(r, 7) == 5 && LastFill(r, 8) == 5;
  }
}
