/** The stop the codec queues itself when a partway run arrives at its target. */
module GotoRuns {
  import opened HcpTypes
  import opened Lifecycle
  import opened Runs

  // ----- what a telegram leaves once it has been applied -----

  /** The parts of the state a go-to stop is decided from. */
  datatype Bearing = Bearing(
    current: Byte, goto: nat, state: DoorState, pending: bool,
    position: Word, word: Word, valid: bool, pause: bool, slot: Slot)

  function BearingOf(c: Core): Bearing {
    Bearing(c.door.current, c.door.goto, c.door.state, c.gotoCheckPending, c.bcast[1], c.bcast[2],
            c.door.valid, c.pause.requested, c.slot)
  }

  /** The state a telegram with this state word leaves behind. */
  function StateAfter(b: Bearing, val: Word): DoorState {
    if b.word / 0x100 != val / 0x100 && Translate(val).Some? then Translate(val).value else b.state
  }

  /** This telegram ends a movement. */
  predicate Ends(b: Bearing, val: Word) {
    IsMoving(b.state) && !IsMoving(StateAfter(b, val))
  }

  function Moved(b: Bearing, val: Word): Bearing {
    if b.position % 0x100 != val % 0x100
    then b.(position := val, current := val % 0x100, pending := true)
    else b.(position := val)
  }

  function Turned(b: Bearing, val: Word): Bearing {
    b.(word := val, state := StateAfter(b, val), goto := if Ends(b, val) then 0 else b.goto)
  }

  lemma PositionRegister(c: Core, val: Word)
    ensures BearingOf(c.WriteBcast(1, val)) == Moved(BearingOf(c), val)
  {
  }

  lemma StateRegister(c: Core, val: Word)
    ensures BearingOf(c.WriteBcast(2, val)) == Turned(BearingOf(c), val)
  {
  }

  lemma OtherRegister(c: Core, i: nat, val: Word)
    requires i < 9 && i != 1 && i != 2
    ensures BearingOf(c.WriteBcast(i, val)) == BearingOf(c)
  {
    FaultRegister(c, val);
    hide Core.ReportPosition, Core.CountState, Core.ShowState, Core.ReportFault, Core.ReportLight;
  }

  lemma FaultRegister(c: Core, val: Word)
    ensures BearingOf(c.ReportFault(val).ReportLight(val)) == BearingOf(c)
    ensures c.ReportFault(val).ReportLight(val).bcast == c.bcast
  {
  }

  lemma {:induction false} OtherRegisters(c: Core, words: seq<Word>, i: nat)
    requires 3 <= i <= |words| <= 9
    ensures BearingOf(c.WriteFrom(words, i)) == BearingOf(c)
    decreases |words| - i
  {
    if i < |words| {
      OtherRegister(c, i, words[i]);
      hide Core.WriteBcast, BearingOf;
      OtherRegisters(c.WriteBcast(i, words[i]), words, i + 1);
    }
  }

  /** The position register once a telegram has been applied; a short one leaves it as it was. */
  function PositionIn(c: Core, words: seq<Word>): Word {
    if |words| >= 2 then words[1] else c.bcast[1]
  }

  function WordIn(c: Core, words: seq<Word>): Word {
    if |words| >= 3 then words[2] else c.bcast[2]
  }

  lemma KeptPosition(b: Bearing)
    ensures Moved(b, b.position) == b
  {
  }

  lemma KeptWord(b: Bearing)
    ensures Turned(b, b.word) == b
  {
  }

  /** A telegram, once all of it has been applied and before the target is looked at. */
  lemma AppliedReport(c: Core, words: seq<Word>)
    requires |words| <= 9
    ensures BearingOf(c.LinkUp().WriteFrom(words, 0))
      == Turned(Moved(BearingOf(c).(valid := true), PositionIn(c, words)), WordIn(c, words))
  {
    hide Core.WriteBcast, Core.WriteFrom, Core.LinkUp, Moved, Turned;
    LinkUpBearing(c);
    KeptPosition(BearingOf(c).(valid := true));
    AppliedFrom0(c.LinkUp(), words);
    AppliedFrom1(AfterFirst(c.LinkUp(), words), words);
    var m := Moved(BearingOf(c).(valid := true), PositionIn(c, words));
    MovedKeepsWord(BearingOf(c).(valid := true), PositionIn(c, words));
    KeptWord(m);
  }

  lemma MovedKeepsWord(b: Bearing, val: Word)
    ensures Moved(b, val).word == b.word
  {
  }

  function AfterFirst(c: Core, words: seq<Word>): Core
    requires |words| <= 9
  {
    if |words| == 0 then c else c.WriteBcast(0, words[0])
  }

  lemma AppliedFrom0(c: Core, words: seq<Word>)
    requires |words| <= 9
    ensures BearingOf(AfterFirst(c, words)) == BearingOf(c)
    ensures c.WriteFrom(words, 0) == AfterFirst(c, words).WriteFrom(words, if |words| == 0 then 0 else 1)
  {
    hide Core.WriteBcast, BearingOf;
    if |words| > 0 {
      Unrolled(c, words, 0);
      OtherRegister(c, 0, words[0]);
    }
  }

  lemma AppliedFrom1(c: Core, words: seq<Word>)
    requires |words| <= 9
    ensures BearingOf(c.WriteFrom(words, if |words| == 0 then 0 else 1))
      == (if |words| < 2 then BearingOf(c)
          else if |words| == 2 then Moved(BearingOf(c), words[1])
          else Turned(Moved(BearingOf(c), words[1]), words[2]))
  {
    hide Core.WriteBcast, BearingOf, Moved, Turned;
    if |words| >= 2 {
      Unrolled(c, words, 1);
      PositionRegister(c, words[1]);
      if |words| >= 3 {
        Unrolled(c.WriteBcast(1, words[1]), words, 2);
        StateRegister(c.WriteBcast(1, words[1]), words[2]);
        OtherRegisters(c.WriteBcast(1, words[1]).WriteBcast(2, words[2]), words, 3);
      }
    }
  }

  lemma Unrolled(c: Core, words: seq<Word>, i: nat)
    requires i < |words| <= 9
    ensures c.WriteFrom(words, i) == c.WriteBcast(i, words[i]).WriteFrom(words, i + 1)
  {
    hide Core.WriteBcast;
  }

  lemma LinkUpBearing(c: Core)
    ensures BearingOf(c.LinkUp()) == BearingOf(c).(valid := true)
  {
  }

  // ----- one telegram -----

  /** Between telegrams the position shown is the drive's own, and nothing is left to check. */
  predicate Settled(c: Core) {
    c.door.current == c.bcast[1] % 0x100 && !c.gotoCheckPending
  }

  /** A door at `position` has come to its target, or past it, in the direction it travels. */
  predicate Arrived(state: DoorState, goto: nat, position: Byte) {
    (state == Opening && position >= 2 * goto) || (state == Closing && position <= 2 * goto)
  }

  /**
   * A telegram of any length queues a stop exactly when it moves the position, a
   * target is armed and survives it, the door travels and has arrived, and no
   * pause stands. Only a stop that is queued uses the target up.
   */
  lemma ReportStopsIff(c: Core, now: Millis, words: seq<Word>)
    requires |words| <= 9 && Settled(c)
    ensures var b, position, word := BearingOf(c), PositionIn(c, words) % 0x100, WordIn(c, words);
      var stops := position != c.door.current && c.door.goto != 0 && !Ends(b, word)
        && Arrived(StateAfter(b, word), c.door.goto, position) && !c.pause.requested;
      var d := c.Report(now, words);
      && (Filled(c, Report(words)) == Some(Stop) <==> stops)
      && (stops ==> d.slot == c.slot.(next := Stop, nextOn := now, cancelWatch := true))
      && (!stops ==> d.slot == c.slot)
      && d.door.goto == (if stops || Ends(b, word) then 0 else c.door.goto)
      && Settled(d) && d.door.state == StateAfter(b, word) && d.door.current == position
      && d.bcast[2] == word && d.pause == c.pause
  {
    AppliedReport(c, words);
    ReportTouches(c.LinkUp(), words, 0);
    hide Core.WriteFrom, StateAfter, Ends, PositionIn, WordIn;
  }

  /**
   * A telegram that ends the movement clears the target and queues nothing,
   * whatever else it reports, and one that does not say the state ends none.
   */
  lemma EndingQueuesNothing(c: Core, now: Millis, words: seq<Word>)
    requires |words| <= 9 && Settled(c) && Ends(BearingOf(c), WordIn(c, words))
    ensures |words| >= 3
    ensures Filled(c, Report(words)) == None
    ensures c.Report(now, words).door.goto == 0 && c.Report(now, words).slot == c.slot
  {
    ReportStopsIff(c, now, words);
    hide Core.Report;
  }

  // ----- a whole journey -----

  /** The door travels, as its own state word says, and no pause stands. */
  predicate UnderWay(c: Core, code: Byte) {
    && Settled(c) && !c.pause.requested && c.bcast[2] / 0x100 == code
    && ((c.door.state == Opening && code == 0x01) || (c.door.state == Closing && code == 0x02))
  }

  predicate NotBack(state: DoorState, before: Byte, after: Byte) {
    if state == Opening then before <= after else after <= before
  }

  /** A telegram of a door that is still under way, and has not turned back. */
  predicate Steady(c: Core, code: Byte, words: seq<Word>) {
    && |words| <= 9 && WordIn(c, words) / 0x100 == code
    && NotBack(c.door.state, c.door.current, PositionIn(c, words) % 0x100)
  }

  /** A step that leaves the door and its target alone: a poll, a press, anything but a telegram. */
  predicate Undisturbed(c: Core, d: Core) {
    BearingOf(d).(slot := c.slot) == BearingOf(c)
  }

  /** Steps `a` to `b`: steady telegrams, and between them anything that leaves the door alone. */
  ghost predicate IsJourney(r: Run, a: nat, b: nat, code: Byte) {
    && IsRun(r) && a <= b <= |r.inputs| && UnderWay(r.states[a], code)
    && forall k :: a <= k < b ==> JourneyStep(r, k, code)
  }

  ghost predicate JourneyStep(r: Run, k: nat, code: Byte)
    requires IsRun(r) && k < |r.inputs|
  {
    if r.inputs[k].Report? then Steady(r.states[k], code, r.inputs[k].words)
    else Undisturbed(r.states[k], r.states[k + 1])
  }

  /** At step `k` a telegram puts the door at its target or past it. */
  ghost predicate ArrivesAt(r: Run, k: nat, state: DoorState, goto: nat)
    requires IsRun(r) && k < |r.inputs|
  {
    r.inputs[k].Report? && Arrived(state, goto, PositionIn(r.states[k], r.inputs[k].words) % 0x100)
  }

  ghost predicate ArrivedBefore(r: Run, a: nat, k: nat, state: DoorState, goto: nat)
    requires IsRun(r) && k <= |r.inputs|
  {
    exists i :: a <= i < k && ArrivesAt(r, i, state, goto)
  }

  lemma SteadyKeepsState(c: Core, code: Byte, words: seq<Word>)
    requires UnderWay(c, code) && Steady(c, code, words)
    ensures StateAfter(BearingOf(c), WordIn(c, words)) == c.door.state && !Ends(BearingOf(c), WordIn(c, words))
  {
  }

  lemma SteadyTelegram(c: Core, now: Millis, code: Byte, words: seq<Word>)
    requires UnderWay(c, code) && Steady(c, code, words)
    ensures var d, position := c.Report(now, words), PositionIn(c, words) % 0x100;
      var stops := c.door.goto != 0 && position != c.door.current && Arrived(c.door.state, c.door.goto, position);
      && UnderWay(d, code) && d.door.state == c.door.state && d.door.current == position
      && (Filled(c, Report(words)) == Some(Stop) <==> stops)
      && d.door.goto == (if stops then 0 else c.door.goto)
  {
    SteadyKeepsState(c, code, words);
    ReportStopsIff(c, now, words);
    hide Core.Report, Filled, Arrived, StateAfter, Ends;
  }

  lemma AlikeUnderWay(c: Core, d: Core, code: Byte)
    requires Quiet(c) == Quiet(d)
    ensures BearingOf(c) == BearingOf(d) && (UnderWay(c, code) <==> UnderWay(d, code))
  {
  }

  /** The target stands until the first telegram that reaches it, and the door is short of it until then. */
  lemma {:induction false} JourneyHolds(r: Run, a: nat, b: nat, code: Byte, k: nat)
    requires IsJourney(r, a, b, code) && a <= k <= b
    requires r.states[a].door.goto != 0
    requires !Arrived(r.states[a].door.state, r.states[a].door.goto, r.states[a].door.current)
    ensures var state, goto := r.states[a].door.state, r.states[a].door.goto;
      var c := r.states[k];
      && UnderWay(c, code) && c.door.state == state
      && (if ArrivedBefore(r, a, k, state, goto) then c.door.goto == 0
          else c.door.goto == goto && !Arrived(state, goto, c.door.current))
  {
    if k > a {
      hide Next, Quiet, UnderWay, Arrived, ArrivedBefore, ArrivesAt, Filled;
      JourneyHolds(r, a, b, code, k - 1);
      var state, goto := r.states[a].door.state, r.states[a].door.goto;
      ArrivedBeforeStep(r, a, k, state, goto);
      JourneyGoesOn(r, k - 1, code, state, goto);
    }
  }

  lemma ArrivedBeforeStep(r: Run, a: nat, k: nat, state: DoorState, goto: nat)
    requires IsRun(r) && a < k <= |r.inputs|
    ensures ArrivedBefore(r, a, k, state, goto)
      <==> ArrivedBefore(r, a, k - 1, state, goto) || ArrivesAt(r, k - 1, state, goto)
  {
    hide ArrivesAt, IsRun;
  }

  lemma JourneyGoesOn(r: Run, k: nat, code: Byte, state: DoorState, goto: nat)
    requires IsRun(r) && k < |r.inputs| && JourneyStep(r, k, code)
    requires UnderWay(r.states[k], code) && r.states[k].door.state == state && goto != 0
    requires r.states[k].door.goto == 0
      || (r.states[k].door.goto == goto && !Arrived(state, goto, r.states[k].door.current))
    ensures var d := r.states[k + 1];
      && UnderWay(d, code) && d.door.state == state
      && d.door.goto == (if ArrivesAt(r, k, state, goto) then 0 else r.states[k].door.goto)
      && (ArrivesAt(r, k, state, goto) || r.states[k].door.goto == 0 || !Arrived(state, goto, d.door.current))
  {
    assert IsStep(r, k);
    var c, now := r.states[k], Shown(r.times[k]);
    if r.inputs[k].Report? {
      SteadyTelegram(c, now, code, r.inputs[k].words);
      AlikeUnderWay(r.states[k + 1], c.Report(now, r.inputs[k].words), code);
      hide Core.Report, Quiet, Filled, UnderWay, Arrived;
    } else {
      hide Next, Quiet, Arrived;
    }
  }

  /**
   * On a steady journey towards an armed target a stop is queued with the first
   * telegram at or past the target, and with no other.
   */
  lemma {:induction false} StopsAtTheTarget(r: Run, a: nat, b: nat, code: Byte, k: nat)
    requires IsJourney(r, a, b, code) && a <= k < b && r.inputs[k].Report?
    requires r.states[a].door.goto != 0
    requires !Arrived(r.states[a].door.state, r.states[a].door.goto, r.states[a].door.current)
    ensures var state, goto := r.states[a].door.state, r.states[a].door.goto;
      FilledAt(r, k) == Some(Stop) <==> ArrivesAt(r, k, state, goto) && !ArrivedBefore(r, a, k, state, goto)
  {
    JourneyHolds(r, a, b, code, k);
    assert JourneyStep(r, k, code);
    SteadyTelegram(r.states[k], Shown(r.times[k]), code, r.inputs[k].words);
    hide Filled, UnderWay, Arrived, ArrivedBefore;
  }

  // ----- between telegrams everything is settled, in every run -----

  predicate SameReport(c: Core, d: Core) {
    d.door.current == c.door.current && d.bcast == c.bcast && d.gotoCheckPending == c.gotoCheckPending
  }

  lemma EffectReport(c: Core, now: Millis)
    ensures SameReport(c, c.CheckEffect(now))
  {
    hide Elapsed, Core.TookEffect;
  }

  lemma PollReport(c: Core, now: Millis)
    ensures SameReport(c, c.Poll(now))
  {
    EffectReport(c, now);
    RestReport(c.CheckEffect(now), now);
    hide Core.CheckEffect, Core.HonourCancel, Core.Expire, Core.TakeStop, Core.Choose, Core.RepeatStillMakesSense;
  }

  lemma RestReport(c: Core, now: Millis)
    ensures SameReport(c, c.HonourCancel().Expire(now).TakeStop())
  {
    hide Elapsed;
  }

  lemma ExchangeReport(c: Core, now: Millis, input: Input)
    requires input.Exchange? && Possible(input)
    ensures SameReport(c, Next(c, now, input))
  {
    hide Core.Poll, Received;
    ReceivedReport(c, input);
    PollReport(Received(c, input), now);
  }

  lemma ReceivedReport(c: Core, input: Input)
    requires input.Exchange?
    ensures SameReport(c, Received(c, input))
  {
  }

  lemma CallReport(c: Core, now: Millis, input: Input)
    requires !input.Exchange? && !input.Report? && Possible(input)
    ensures SameReport(c, Next(c, now, input))
  {
  }

  predicate Tracks(c: Core) {
    c.door.current == c.bcast[1] % 0x100
  }

  lemma {:induction false} WritesTrack(c: Core, words: seq<Word>, i: nat)
    requires i <= |words| <= 9 && Tracks(c)
    ensures Tracks(c.WriteFrom(words, i))
    decreases |words| - i
  {
    hide Core.WriteBcast;
    if i < |words| {
      if i == 1 {
        PositionRegister(c, words[1]);
      } else if i == 2 {
        StateRegister(c, words[2]);
      } else {
        OtherRegister(c, i, words[i]);
      }
      WritesTrack(c.WriteBcast(i, words[i]), words, i + 1);
    }
  }

  lemma ReportSettles(c: Core, now: Millis, words: seq<Word>)
    requires |words| <= 9 && Tracks(c)
    ensures Settled(c.Report(now, words))
  {
    WritesTrack(c.LinkUp(), words, 0);
    hide Core.WriteFrom;
  }

  lemma {:induction false} SettledAlways(r: Run, k: nat)
    requires IsRun(r) && k < |r.states|
    ensures Settled(r.states[k])
  {
    hide Next;
    if k > 0 {
      SettledAlways(r, k - 1);
      assert IsStep(r, k - 1);
      var c, now, input := r.states[k - 1], Shown(r.times[k - 1]), r.inputs[k - 1];
      if input.Exchange? {
        ExchangeReport(c, now, input);
      } else if input.Report? {
        ReportSettles(c, now, input.words);
        ReportIs(c, now, input);
      } else {
        CallReport(c, now, input);
      }
    }
  }

  lemma ReportIs(c: Core, now: Millis, input: Input)
    requires input.Report? && Possible(input)
    ensures Next(c, now, input) == c.Report(now, input.words)
  {
  }
}
