/**
 * Whole runs of the command lifecycle: any frames, any calls from the loop, in
 * any order, on a clock that never goes back. A run follows the part of the
 * codec's state that decides what is sent; event log, reported link and
 * published texts do not, and are left free.
 */
module Runs {
  import opened HcpTypes
  import opened Lifecycle

  datatype Input =
    // an answered exchange; `poll` is a full status poll
    | Exchange(counterByte: Byte, command: Byte, poll: bool)
    | Report(words: seq<Word>)
    | Noise
    | Press(cond: bool, cmd: Command)
    | GoTo(percent: int)
    | StopPress
    | RequestPause
    | EndPause
    | DropQueued
    | CheckSilence(gone: bool)

  predicate Possible(input: Input) {
    match input
    case Report(words) => |words| <= 9
    case Exchange(_, command, poll) => poll ==> command == CMD_STATUS
    case _ => true
  }

  /** The state with everything blanked that never decides what is sent. */
  function Quiet(c: Core): Core {
    c.(log := [], lastFrameOn := 0, pause := c.pause.(confirmed := false),
       door := c.door.(link := NeverSeen, serial := [], firmware := [], changed := false))
  }

  /** The state in which an exchange comes to choose what it carries. */
  function Received(c: Core, input: Input): Core
    requires input.Exchange?
  {
    c.SyncCounter(input.counterByte, input.command).ForgetSent()
  }

  function Next(c: Core, now: Millis, input: Input): Core
    requires Possible(input)
  {
    match input
    case Exchange(_, _, poll) =>
      var s := Received(c, input);
      if !poll then s.LinkUp().AdvanceCounter()
      else if s.pause.requested then s.PausedPoll().AdvanceCounter()
      else s.Poll(now).LinkUp().AdvanceCounter()
    case Report(words) => c.Report(now, words)
    case Noise => c
    case Press(cond, cmd) => c.SetCommand(now, cond, cmd)
    case GoTo(percent) => c.SetPosition(now, percent)
    case StopPress => c.StopDoor(now)
    case RequestPause => c.RequestPause()
    case EndPause => c.EndPause()
    case DropQueued => c.DropQueued()
    case CheckSilence(gone) => if gone then c.DropQueued().(door := c.door.SetValid(false)) else c
  }

  /** What the answer of this step carries. */
  function Sent(c: Core, now: Millis, input: Input): Choice {
    if input.Exchange? && input.poll && !c.pause.requested then Received(c, input).Choose(now) else Nothing
  }

  /** The report that has the codec queue a stop of its own. */
  predicate GotoStops(c: Core, words: seq<Word>)
    requires |words| <= 9
  {
    var d := c.LinkUp().WriteFrom(words, 0);
    d.gotoCheckPending && d.door.goto != 0 && d.AtTarget() && d.Listening()
  }

  /** The command this step puts into the slot, if it is accepted. */
  function Filled(c: Core, input: Input): Option<Command>
    requires Possible(input)
  {
    match input
    case Press(cond, cmd) => if cond && c.Takes(true) then Some(cmd) else None
    case GoTo(percent) =>
      if c.Takes(true) && (percent <= 5 || percent >= 95
          || (c.caps.hasPosition && c.GotoCommand(percent) != NoCommand))
      then Some(c.GotoCommand(percent)) else None
    case StopPress => if c.Listening() then Some(Stop) else None
    case Report(words) => if GotoStops(c, words) then Some(Stop) else None
    case _ => None
  }

  // ----- runs -----

  datatype Run = Run(states: seq<Core>, inputs: seq<Input>, times: seq<nat>)

  ghost predicate IsRun(r: Run) {
    && |r.states| == |r.inputs| + 1 == |r.times| + 1
    && Quiet(r.states[0]) == Quiet(NEW_CORE.(caps := r.states[0].caps))
    && (forall i, j :: 0 <= i < j < |r.times| ==> r.times[i] <= r.times[j])
    && forall k :: 0 <= k < |r.inputs| ==> IsStep(r, k)
  }

  ghost predicate IsStep(r: Run, k: nat)
    requires k < |r.inputs| == |r.times| == |r.states| - 1
  {
    && Possible(r.inputs[k])
    && Quiet(r.states[k + 1]) == Quiet(Next(r.states[k], Shown(r.times[k]), r.inputs[k]))
  }

  lemma RunShape(r: Run)
    requires IsRun(r)
    ensures |r.states| == |r.inputs| + 1 == |r.times| + 1
  {
    hide IsStep;
  }

  ghost function SentAt(r: Run, k: nat): Choice
    requires IsRun(r) && k < |r.inputs|
  {
    Sent(r.states[k], Shown(r.times[k]), r.inputs[k])
  }

  ghost function FilledAt(r: Run, k: nat): Option<Command>
    requires IsRun(r) && k < |r.inputs|
  {
    assert IsStep(r, k);
    Filled(r.states[k], r.inputs[k])
  }

  /** The last call before step `k` that filled the slot, or -1. */
  ghost function LastFill(r: Run, k: nat): (f: int)
    requires IsRun(r) && k < |r.states|
    ensures -1 <= f < k
  {
    if k == 0 then -1 else if FilledAt(r, k - 1).Some? then k - 1 else LastFill(r, k - 1)
  }

  /** The last step before `k` that took a command out of the slot, or -1. */
  ghost function LastFresh(r: Run, k: nat): (f: int)
    requires IsRun(r) && k < |r.states|
    ensures -1 <= f < k
  {
    if k == 0 then -1 else if SentAt(r, k - 1).Fresh? then k - 1 else LastFresh(r, k - 1)
  }

  lemma {:induction false} LastFillIs(r: Run, k: nat)
    requires IsRun(r) && k < |r.states|
    ensures LastFill(r, k) >= 0 ==> FilledAt(r, LastFill(r, k)).Some?
    ensures forall i :: LastFill(r, k) < i < k ==> FilledAt(r, i).None?
  {
    hide Filled;
    if k > 0 {
      LastFillIs(r, k - 1);
    }
  }

  lemma {:induction false} LastFreshIs(r: Run, k: nat)
    requires IsRun(r) && k < |r.states|
    ensures LastFresh(r, k) >= 0 ==> SentAt(r, LastFresh(r, k)).Fresh?
    ensures forall i :: LastFresh(r, k) < i < k ==> !SentAt(r, i).Fresh?
  {
    hide Sent;
    if k > 0 {
      LastFreshIs(r, k - 1);
    }
  }

  /** The command taken last, before step `k`. */
  ghost function Taken(r: Run, k: nat): Command
    requires IsRun(r) && k < |r.states|
  {
    if k == 0 then NoCommand
    else if SentAt(r, k - 1).Fresh? then SentAt(r, k - 1).cmd
    else Taken(r, k - 1)
  }

  /** How many answers before step `k` have carried it. */
  ghost function Carried(r: Run, k: nat): nat
    requires IsRun(r) && k < |r.states|
  {
    if k == 0 then 0 else
      match SentAt(r, k - 1)
      case Fresh(_) => 1
      case Again(_) => Carried(r, k - 1) + 1
      case Nothing => Carried(r, k - 1)
  }

  // ----- what a report can touch -----

  /** A report reaches neither the slot nor the watch, and a changed state has been counted. */
  predicate ReportOnly(c: Core, d: Core) {
    && d.slot == c.slot && d.watch == c.watch && d.receipt == c.receipt && d.pause == c.pause && d.caps == c.caps
    && d.door.valid == c.door.valid
    && d.stateWrites >= c.stateWrites
    && (d.stateWrites == c.stateWrites ==> d.door.state == c.door.state)
  }

  lemma StateTouches(c: Core, val: Word)
    ensures ReportOnly(c, c.CountState(val).ShowState(val))
  {
  }

  lemma RegisterTouches(c: Core, i: nat, val: Word)
    requires i < 9
    ensures ReportOnly(c, c.WriteBcast(i, val))
  {
    StateTouches(c, val);
    LampsTouch(c, val);
    hide Core.CountState, Core.ShowState, Core.ReportFault, Core.ReportLight;
  }

  lemma LampsTouch(c: Core, val: Word)
    ensures ReportOnly(c, c.ReportFault(val).ReportLight(val))
  {
  }

  lemma {:induction false} ReportTouches(c: Core, words: seq<Word>, i: nat)
    requires i <= |words| <= 9
    ensures ReportOnly(c, c.WriteFrom(words, i))
    decreases |words| - i
  {
    if i < |words| {
      RegisterTouches(c, i, words[i]);
      hide Core.WriteBcast;
      ReportTouches(c.WriteBcast(i, words[i]), words, i + 1);
    }
  }

  // ----- one step and the slot -----

  lemma PollSlot(c: Core, now: Millis)
    ensures var s := c.Poll(now).slot;
      s.nextOn == c.slot.nextOn && (s.next == c.slot.next || s.next == NoCommand)
  {
    hide Elapsed, Core.TookEffect, Core.RepeatStillMakesSense;
  }

  lemma StepSlot(c: Core, now: Millis, input: Input)
    requires Possible(input)
    ensures var d := Next(c, now, input);
      match Filled(c, input)
      case Some(cmd) => d.slot.next == cmd && d.slot.nextOn == now
      case None => d.slot.nextOn == c.slot.nextOn && (d.slot.next == c.slot.next || d.slot.next == NoCommand)
  {
    hide Core.Poll, Core.WriteFrom, Core.Rearm;
    match input
    case Exchange(_, _, _) =>
      RearmKeeps(c);
      PollSlot(Received(c, input), now);
    case Report(words) => ReportTouches(c.LinkUp(), words, 0);
    case _ =>
  }

  lemma RearmKeeps(c: Core)
    ensures var d := c.Rearm();
      d.slot == c.slot && d.door == c.door && d.stateWrites == c.stateWrites && d.caps == c.caps && d.pause == c.pause
  {
  }

  /** A command in the slot is the one the last accepted call put there, stamped with that call's time. */
  lemma {:induction false} SlotHolds(r: Run, k: nat)
    requires IsRun(r) && k < |r.states|
    ensures r.states[k].slot.next != NoCommand ==>
      var f := LastFill(r, k);
      f >= 0 && FilledAt(r, f) == Some(r.states[k].slot.next) && r.states[k].slot.nextOn == Shown(r.times[f])
  {
    hide Filled, Next;
    if k > 0 {
      SlotHolds(r, k - 1);
      assert IsStep(r, k - 1);
      StepSlot(r.states[k - 1], Shown(r.times[k - 1]), r.inputs[k - 1]);
    }
  }

  lemma FreshComesFromSlot(c: Core, now: Millis, input: Input)
    requires Possible(input) && Sent(c, now, input).Fresh?
    ensures c.slot.next != NoCommand && Elapsed(now, c.slot.nextOn) <= CMD_STALE_MS
    ensures Sent(c, now, input).cmd == c.Offered() != NoCommand
  {
  }

  /** What a call puts on the wire: a stop goes out as an impulse. */
  function Meant(cmd: Command): Command {
    if cmd == Stop then Impulse else cmd
  }

  /**
   * A command goes out for the first time at most `CMD_STALE_MS` after the call
   * that queued it, and refused taps in between change nothing about that. The
   * clock may wrap; only a wait of a whole turn of it could be mistaken.
   */
  lemma {:induction false} FreshIsNotStale(r: Run, k: nat)
    requires IsRun(r) && k < |r.inputs| && SentAt(r, k).Fresh?
    ensures var f := LastFill(r, k);
      && f >= 0
      && FilledAt(r, f).Some? && SentAt(r, k).cmd == Meant(FilledAt(r, f).value)
      && (r.times[k] - r.times[f] <= CMD_STALE_MS || r.times[k] - r.times[f] >= CLOCK_SPAN)
  {
    assert IsStep(r, k);
    SlotHolds(r, k);
    FreshComesFromSlot(r.states[k], Shown(r.times[k]), r.inputs[k]);
    ElapsedIsReal(r.times[k], r.times[LastFill(r, k)]);
  }

  // ----- one step and the watch -----

  /**
   * The watch holds nothing but the command taken last, and every answer that
   * carried it after the first, one about to go out included, was paid for by a
   * counter that has a limit.
   */
  predicate Budgeted(c: Core, taken: Command, carried: nat) {
    && (c.watch.awaited == NoCommand || c.watch.awaited == taken)
    && (c.watch.repeat == NoCommand || c.watch.repeat == taken)
    && (c.watch.lastSent == NoCommand || c.watch.lastSent == taken)
    && (taken == NoCommand ==> carried == 0)
    && carried + (if c.watch.repeat == NoCommand then 0 else 1) <= 1 + c.watch.confirmRepeats + c.watch.repeatsSent
    && c.watch.confirmRepeats <= c.caps.unactedRepeats
    && c.watch.repeatsSent <= c.caps.lostAnswerRepeats
  }

  function TakenNow(sent: Choice, before: Command): Command {
    if sent.Fresh? then sent.cmd else before
  }

  function CarriedNow(sent: Choice, before: nat): nat {
    match sent
    case Fresh(_) => 1
    case Again(_) => before + 1
    case Nothing => before
  }

  lemma SyncBudget(c: Core, input: Input, taken: Command, carried: nat)
    requires input.Exchange? && Budgeted(c, taken, carried)
    ensures Budgeted(Received(c, input), taken, carried)
  {
  }

  lemma EffectBudget(c: Core, now: Millis, taken: Command, carried: nat)
    requires Budgeted(c, taken, carried)
    ensures Budgeted(c.CheckEffect(now), taken, carried)
  {
    hide Elapsed, Core.TookEffect;
  }

  /** Between the look at the effect and the choice, the watch can only be dropped. */
  lemma RestOfReady(c: Core, now: Millis)
    ensures var d := c.HonourCancel().Expire(now).TakeStop();
      && d.caps == c.caps && d.stateWrites == c.stateWrites && d.door == c.door && !d.slot.cancelWatch
      && d.watch == (if c.slot.cancelWatch then c.watch.(awaited := NoCommand, repeat := NoCommand) else c.watch)
  {
    hide Elapsed;
  }

  lemma ReadyBudget(c: Core, now: Millis, taken: Command, carried: nat)
    requires Budgeted(c, taken, carried)
    ensures Budgeted(c.Ready(now).TakeStop(), taken, carried)
  {
    EffectBudget(c, now, taken, carried);
    RestOfReady(c.CheckEffect(now), now);
    hide Core.CheckEffect, Core.HonourCancel, Core.Expire, Core.TakeStop;
  }

  lemma PollBudget(c: Core, now: Millis, taken: Command, carried: nat)
    requires Budgeted(c, taken, carried)
    ensures var sent := c.Choose(now);
      && Budgeted(c.Poll(now), TakenNow(sent, taken), CarriedNow(sent, carried))
      && (sent.Again? ==> sent.cmd == taken != NoCommand)
      && (sent.Fresh? ==> sent.cmd != NoCommand)
  {
    ReadyBudget(c, now, taken, carried);
    ReadyRepeat(c, now);
    hide Core.Ready, Core.TakeStop;
  }

  lemma ReadyRepeat(c: Core, now: Millis)
    ensures c.Ready(now).TakeStop().watch == c.Ready(now).watch
    ensures c.Ready(now).TakeStop().RepeatStillMakesSense() == c.Ready(now).RepeatStillMakesSense()
  {
    hide Core.Ready;
  }

  /** What a call from the loop, or a frame nobody answers, leaves alone. */
  lemma CallTouches(c: Core, now: Millis, input: Input)
    requires Possible(input) && !input.Exchange? && !input.Report?
    ensures var d := Next(c, now, input);
      && d.watch == c.watch && d.receipt == c.receipt && d.caps == c.caps
      && d.stateWrites == c.stateWrites && d.door.state == c.door.state
  {
  }

  lemma GotoTouches(c: Core, now: Millis)
    ensures var d := c.CheckGotoTarget(now);
      && d.watch == c.watch && d.receipt == c.receipt && d.caps == c.caps
      && d.stateWrites == c.stateWrites && d.door.state == c.door.state
  {
  }

  /** What a report leaves alone. */
  lemma WholeReportTouches(c: Core, now: Millis, words: seq<Word>)
    requires |words| <= 9
    ensures var d := c.Report(now, words);
      && d.watch == c.watch && d.receipt == c.receipt && d.caps == c.caps
      && d.stateWrites >= c.stateWrites
      && (d.stateWrites == c.stateWrites ==> d.door.state == c.door.state)
  {
    ReportTouches(c.LinkUp(), words, 0);
    GotoTouches(c.LinkUp().WriteFrom(words, 0), now);
    hide Core.WriteFrom, Core.CheckGotoTarget;
  }

  /** What a poll leaves alone. */
  predicate PollOnly(c: Core, d: Core) {
    && d.receipt == c.receipt && d.caps == c.caps && d.pause == c.pause
    && d.stateWrites == c.stateWrites && d.door.state == c.door.state && d.door.lightOn == c.door.lightOn
  }

  lemma EffectTouches(c: Core, now: Millis)
    ensures PollOnly(c, c.CheckEffect(now))
  {
    hide Elapsed, Core.TookEffect;
  }

  lemma ReadyTouches(c: Core, now: Millis)
    ensures PollOnly(c, c.Ready(now).TakeStop())
  {
    hide Elapsed, Core.TookEffect;
    EffectTouches(c, now);
    hide Core.CheckEffect;
  }

  lemma PollTouches(c: Core, now: Millis)
    ensures PollOnly(c, c.Poll(now))
  {
    ReadyTouches(c, now);
    hide Core.Ready, Core.TakeStop, Core.Choose, Core.RepeatStillMakesSense;
  }

  lemma PollNotesChoice(c: Core, now: Millis)
    ensures c.Poll(now).watch.lastSent == CommandOf(c.Choose(now))
  {
    hide Core.Ready, Core.TakeStop, Core.Take, Core.ReadRepeat;
  }

  lemma ReceivedTouches(c: Core, input: Input)
    requires input.Exchange?
    ensures var d := Received(c, input);
      && d.caps == c.caps && d.slot == c.slot && d.door == c.door && d.pause == c.pause
      && d.stateWrites == c.stateWrites && d.watch.lastSent == NoCommand
      && d.watch.stateWritesWhenSent == c.watch.stateWritesWhenSent
  {
    hide Core.Reached;
  }

  /** An exchange, put together from its parts. */
  lemma ExchangeParts(c: Core, now: Millis, input: Input)
    requires input.Exchange? && Possible(input)
    ensures var s, d := Received(c, input), Next(c, now, input);
      && var p := if input.poll && !c.pause.requested then s.Poll(now)
                  else if input.poll then s.DropWatch() else s;
      && d.watch == p.watch && d.slot == p.slot && d.caps == p.caps && d.stateWrites == p.stateWrites
      && d.door.state == p.door.state && d.pause == p.pause && d.receipt == p.receipt.Advance()
      && d.door.valid
  {
    ReceivedTouches(c, input);
    hide Received, Core.Poll;
  }

  lemma ExchangeBudget(c: Core, now: Millis, input: Input, taken: Command, carried: nat)
    requires input.Exchange? && Possible(input) && Budgeted(c, taken, carried)
    ensures var sent := Sent(c, now, input);
      && Budgeted(Next(c, now, input), TakenNow(sent, taken), CarriedNow(sent, carried))
      && (sent.Again? ==> sent.cmd == taken != NoCommand)
      && (sent.Fresh? ==> sent.cmd != NoCommand)
  {
    hide Core.Poll, Core.Choose, Received, Next, Sent;
    SyncBudget(c, input, taken, carried);
    PollBudget(Received(c, input), now, taken, carried);
    ExchangeParts(c, now, input);
    ExchangeSends(c, now, input);
  }

  lemma ExchangeSends(c: Core, now: Millis, input: Input)
    requires input.Exchange?
    ensures Sent(c, now, input)
      == (if input.poll && !c.pause.requested then Received(c, input).Choose(now) else Nothing)
  {
    hide Core.Choose, Received;
  }

  lemma StepBudget(c: Core, now: Millis, input: Input, taken: Command, carried: nat)
    requires Possible(input) && Budgeted(c, taken, carried)
    ensures var sent := Sent(c, now, input);
      && Budgeted(Next(c, now, input), TakenNow(sent, taken), CarriedNow(sent, carried))
      && (sent.Again? ==> sent.cmd == taken != NoCommand)
      && (sent.Fresh? ==> sent.cmd != NoCommand)
  {
    hide Next;
    if input.Exchange? {
      ExchangeBudget(c, now, input, taken, carried);
    } else {
      StepTouches(c, now, input);
    }
  }

  /** What any step that is not an exchange leaves alone. */
  lemma StepTouches(c: Core, now: Millis, input: Input)
    requires Possible(input) && !input.Exchange?
    ensures var d := Next(c, now, input);
      && d.watch == c.watch && d.receipt == c.receipt && d.caps == c.caps
      && d.stateWrites >= c.stateWrites
      && (d.stateWrites == c.stateWrites ==> d.door.state == c.door.state)
  {
    if input.Report? {
      WholeReportTouches(c, now, input.words);
      hide Core.Report;
    } else {
      CallTouches(c, now, input);
      hide Next;
    }
  }

  lemma ExchangeTouches(c: Core, now: Millis, input: Input)
    requires input.Exchange? && Possible(input)
    ensures var d := Next(c, now, input);
      && d.caps == c.caps && d.pause == c.pause
      && d.stateWrites == c.stateWrites && d.door.state == c.door.state
  {
    ExchangeParts(c, now, input);
    ReceivedTouches(c, input);
    PollTouches(Received(c, input), now);
    hide Core.Poll, Received, Next;
  }

  lemma {:induction false} BudgetHolds(r: Run, k: nat)
    requires IsRun(r) && k < |r.states|
    ensures Budgeted(r.states[k], Taken(r, k), Carried(r, k))
  {
    hide Sent, Next;
    if k > 0 {
      BudgetHolds(r, k - 1);
      assert IsStep(r, k - 1);
      StepBudget(r.states[k - 1], Shown(r.times[k - 1]), r.inputs[k - 1], Taken(r, k - 1), Carried(r, k - 1));
    }
  }

  lemma {:induction false} CapsStay(r: Run, k: nat)
    requires IsRun(r) && k < |r.states|
    ensures r.states[k].caps == r.states[0].caps
  {
    if k > 0 {
      CapsStay(r, k - 1);
      assert IsStep(r, k - 1);
      StepCaps(r.states[k - 1], Shown(r.times[k - 1]), r.inputs[k - 1]);
      hide Next;
    }
  }

  lemma StepCaps(c: Core, now: Millis, input: Input)
    requires Possible(input)
    ensures Next(c, now, input).caps == c.caps
  {
    hide Next;
    if input.Exchange? {
      ExchangeTouches(c, now, input);
    } else {
      StepTouches(c, now, input);
    }
  }

  /**
   * Against any traffic at all, one command taken from the slot goes out in at
   * most one answer, plus one for each repeat and each re-send the bus allows,
   * and nothing but that command is ever sent again or watched.
   */
  lemma {:induction false} CarriedIsBounded(r: Run, k: nat)
    requires IsRun(r) && k < |r.states|
    ensures Carried(r, k) <= 1 + r.states[0].caps.lostAnswerRepeats + r.states[0].caps.unactedRepeats
    ensures var w := r.states[k].watch; {w.awaited, w.repeat, w.lastSent} <= {NoCommand, Taken(r, k)}
    ensures k < |r.inputs| && SentAt(r, k).Again? ==> SentAt(r, k).cmd == Taken(r, k) != NoCommand
  {
    hide Sent, Next;
    BudgetHolds(r, k);
    CapsStay(r, k);
    if k < |r.inputs| {
      assert IsStep(r, k);
      StepBudget(r.states[k], Shown(r.times[k]), r.inputs[k], Taken(r, k), Carried(r, k));
    }
  }
}
