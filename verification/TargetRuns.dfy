/** Which calls arm a go-to target, over whole runs: what was asked for with the command that goes out, no other. */
module TargetRuns {
  import opened HcpTypes
  import opened Lifecycle
  import opened Runs
  import opened SendRuns
  import ActRuns
  import GotoRuns

  /**
   * The percentage of the last go-to call for a place partway that was accepted since
   * a command last went out, 0 where there was none.
   */
  ghost function Wanted(r: Run, k: nat): nat
    requires IsRun(r) && k < |r.states|
  {
    if k == 0 || SentAt(r, k - 1).Fresh? then 0
    else if r.inputs[k - 1].GoTo? && 5 < r.inputs[k - 1].percent < 95 && FilledAt(r, k - 1).Some?
    then r.inputs[k - 1].percent
    else Wanted(r, k - 1)
  }

  /** How a request for a place partway is kept; -1 is none. */
  function Kept(wanted: nat): int {
    if wanted == 0 then -1 else wanted
  }

  lemma PollRequests(c: Core, now: Millis)
    ensures var d := c.Poll(now);
      if c.Choose(now).Fresh?
      then d.slot.gotoRequest == -1 && d.door.goto == (if c.slot.gotoRequest < 0 then 0 else c.slot.gotoRequest)
      else d.slot.gotoRequest == c.slot.gotoRequest && (d.door.goto == c.door.goto || d.door.goto == 0)
  {
    hide Core.CheckEffect, Elapsed, Core.RepeatStillMakesSense;
    EffectSlot(c, now);
    EffectTarget(c, now);
  }

  lemma EffectTarget(c: Core, now: Millis)
    ensures c.CheckEffect(now).door.goto == c.door.goto || c.CheckEffect(now).door.goto == 0
  {
    hide Elapsed, Core.TookEffect;
  }

  lemma RegisterTarget(c: Core, i: nat, val: Word)
    requires i < 9
    ensures var d := c.WriteBcast(i, val); d.door.goto == c.door.goto || d.door.goto == 0
  {
    hide Core.WriteBcast;
    if i == 1 {
      GotoRuns.PositionRegister(c, val);
    } else if i == 2 {
      GotoRuns.StateRegister(c, val);
    } else {
      GotoRuns.OtherRegister(c, i, val);
    }
  }

  lemma {:induction false} ReportTarget(c: Core, words: seq<Word>, i: nat)
    requires i <= |words| <= 9
    ensures var d := c.WriteFrom(words, i); d.door.goto == c.door.goto || d.door.goto == 0
    decreases |words| - i
  {
    hide Core.WriteBcast;
    if i < |words| {
      RegisterTarget(c, i, words[i]);
      ReportTarget(c.WriteBcast(i, words[i]), words, i + 1);
    }
  }

  lemma StepTarget(c: Core, now: Millis, input: Input)
    requires Possible(input)
    ensures var d := Next(c, now, input);
      if Sent(c, now, input).Fresh?
      then d.slot.gotoRequest == -1 && d.door.goto == (if c.slot.gotoRequest < 0 then 0 else c.slot.gotoRequest)
      else && d.slot.gotoRequest == (if input.GoTo? && 5 < input.percent < 95 && Filled(c, input).Some?
                                     then input.percent else c.slot.gotoRequest)
           && (d.door.goto == c.door.goto || d.door.goto == 0)
  {
    hide Core.WriteFrom, Core.Poll, Received;
    match input
    case Exchange(_, _, _) =>
      ReceivedTouches(c, input);
      PollRequests(Received(c, input), now);
      ExchangeParts(c, now, input);
      ExchangeTarget(c, now, input);
      hide Next, Core.Choose;
    case Report(words) =>
      ReportTouches(c.LinkUp(), words, 0);
      ReportTarget(c.LinkUp(), words, 0);
    case _ =>
  }

  lemma ExchangeTarget(c: Core, now: Millis, input: Input)
    requires input.Exchange? && Possible(input)
    ensures Next(c, now, input).door.goto
      == (if input.poll && !c.pause.requested then Received(c, input).Poll(now).door.goto else c.door.goto)
  {
    ReceivedTouches(c, input);
    hide Received, Core.Poll;
  }

  lemma {:induction false} RequestIs(r: Run, k: nat)
    requires IsRun(r) && k < |r.states|
    ensures r.states[k].slot.gotoRequest == Kept(Wanted(r, k))
  {
    hide Next, Sent, Filled;
    if k > 0 {
      RequestIs(r, k - 1);
      assert IsStep(r, k - 1);
      StepTarget(r.states[k - 1], Shown(r.times[k - 1]), r.inputs[k - 1]);
    }
  }

  /**
   * With every command that goes out for the first time the target becomes what the
   * last go-to call accepted since the one before asked for, and none where there
   * was no such call; no other step arms a target, it can only take one away.
   */
  lemma {:induction false} TargetIsWanted(r: Run, k: nat)
    requires IsRun(r) && k < |r.inputs|
    ensures |r.states| == |r.inputs| + 1
    ensures if SentAt(r, k).Fresh? then r.states[k + 1].door.goto == Wanted(r, k)
            else r.states[k + 1].door.goto == r.states[k].door.goto || r.states[k + 1].door.goto == 0
  {
    hide Next, Sent, IsRun, Filled;
    ActRuns.StepAt(r, k);
    ActRuns.NextAt(r, k);
    RequestIs(r, k);
    StepTarget(r.states[k], Shown(r.times[k]), r.inputs[k]);
  }
}
