/**
 * What a stop and a pause guarantee over whole runs: an impulse that stems from
 * a stop meets a moving door, and nothing older than either comes back.
 */
module StopRuns {
  import opened HcpTypes
  import opened Lifecycle
  import opened Runs

  // ----- what one step does to the snapshot a repeat is judged by -----

  lemma PollStamp(c: Core, now: Millis)
    ensures var sent := c.Choose(now);
      && c.Poll(now).watch.stateWritesWhenSent
         == (if sent.Fresh? then c.stateWrites else c.watch.stateWritesWhenSent)
      && (sent == Again(Impulse) ==> c.stateWrites == c.watch.stateWritesWhenSent)
  {
    ReadyTouches(c, now);
    ReadyStamp(c, now);
    ReadyRepeat(c, now);
    hide Core.Ready, Core.TakeStop;
  }

  lemma ReadyStamp(c: Core, now: Millis)
    ensures c.Ready(now).TakeStop().watch.stateWritesWhenSent == c.watch.stateWritesWhenSent
  {
    EffectStamp(c, now);
    RestOfReady(c.CheckEffect(now), now);
    hide Core.CheckEffect, Core.HonourCancel, Core.Expire, Core.TakeStop;
  }

  lemma EffectStamp(c: Core, now: Millis)
    ensures c.CheckEffect(now).watch.stateWritesWhenSent == c.watch.stateWritesWhenSent
  {
    hide Elapsed, Core.TookEffect;
  }

  lemma StepStamp(c: Core, now: Millis, input: Input)
    requires Possible(input)
    ensures var sent := Sent(c, now, input);
      && Next(c, now, input).watch.stateWritesWhenSent
         == (if sent.Fresh? then c.stateWrites else c.watch.stateWritesWhenSent)
      && (sent == Again(Impulse) ==> c.stateWrites == c.watch.stateWritesWhenSent)
  {
    if input.Exchange? {
      ReceivedTouches(c, input);
      PollStamp(Received(c, input), now);
      ExchangeParts(c, now, input);
      hide Core.Poll, Core.Choose, Received, Next;
    } else {
      StepTouches(c, now, input);
      hide Next;
    }
  }

  /** Changes of the state word are only ever counted up, and an unchanged count means an unchanged state. */
  lemma {:induction false} StepCounts(c: Core, now: Millis, input: Input)
    requires Possible(input)
    ensures var d := Next(c, now, input);
      d.stateWrites >= c.stateWrites && (d.stateWrites == c.stateWrites ==> d.door.state == c.door.state)
  {
    hide Next;
    if input.Exchange? {
      ExchangeTouches(c, now, input);
    } else {
      StepTouches(c, now, input);
    }
  }

  // ----- the invariant behind it -----

  /** While nothing newer was taken, the snapshot is the count at which the command was. */
  lemma {:induction false} StampHolds(r: Run, k: nat)
    requires IsRun(r) && k < |r.states|
    ensures var f := LastFresh(r, k);
      f >= 0 ==>
        && SentAt(r, f).Fresh? && Taken(r, k) == SentAt(r, f).cmd
        && r.states[k].watch.stateWritesWhenSent == r.states[f].stateWrites <= r.states[k].stateWrites
        && (r.states[k].stateWrites == r.states[f].stateWrites ==>
              r.states[k].door.state == r.states[f].door.state)
  {
    hide Sent, Next;
    if k > 0 {
      StampHolds(r, k - 1);
      assert IsStep(r, k - 1);
      StepStamp(r.states[k - 1], Shown(r.times[k - 1]), r.inputs[k - 1]);
      StepCounts(r.states[k - 1], Shown(r.times[k - 1]), r.inputs[k - 1]);
    }
  }

  /** The step that took what goes out at `k`: this very one, or the last one before it. */
  ghost function Origin(r: Run, k: nat): (f: nat)
    requires IsRun(r) && k < |r.inputs| && !SentAt(r, k).Nothing?
    ensures f <= k && SentAt(r, f).Fresh?
  {
    LastFreshIs(r, k);
    BudgetHolds(r, k);
    assert IsStep(r, k);
    StepBudget(r.states[k], Shown(r.times[k]), r.inputs[k], Taken(r, k), Carried(r, k));
    NothingTaken(r, k);
    if SentAt(r, k).Fresh? then k else LastFresh(r, k)
  }

  lemma {:induction false} NothingTaken(r: Run, k: nat)
    requires IsRun(r) && k < |r.states|
    ensures LastFresh(r, k) == -1 ==> Taken(r, k) == NoCommand
  {
    hide Sent;
    if k > 0 {
      NothingTaken(r, k - 1);
    }
  }

  /** The call that asked for what goes out at `k`. */
  ghost function Asked(r: Run, k: nat): (f: nat)
    requires IsRun(r) && k < |r.inputs| && !SentAt(r, k).Nothing?
    ensures f < k && FilledAt(r, f).Some?
  {
    FreshIsNotStale(r, Origin(r, k));
    LastFill(r, Origin(r, k))
  }

  /**
   * An impulse that stems from a stop, the first and every repeat and re-send of
   * it, goes out only while the door is reported as moving.
   */
  lemma {:induction false} StopMeetsAMovingDoor(r: Run, k: nat)
    requires IsRun(r) && k < |r.inputs| && !SentAt(r, k).Nothing?
    requires FilledAt(r, Asked(r, k)) == Some(Stop)
    ensures SentAt(r, k).cmd == Impulse && IsMoving(r.states[k].door.state)
  {
    var f := Origin(r, k);
    assert IsStep(r, f) && IsStep(r, k);
    SlotHolds(r, f);
    FreshComesFromSlot(r.states[f], Shown(r.times[f]), r.inputs[f]);
    hide Sent;
    if f < k {
      StampHolds(r, k);
      CarriedIsBounded(r, k);
      StepStamp(r.states[k], Shown(r.times[k]), r.inputs[k]);
    }
  }

  // ----- nothing older comes back -----

  /** No command taken before can go out again: the watch is empty or about to be. */
  predicate Unarmed(c: Core) {
    c.slot.cancelWatch || (c.watch.awaited == c.watch.repeat == c.watch.lastSent == NoCommand)
  }

  lemma EffectUnarmed(c: Core, now: Millis)
    requires Unarmed(c)
    ensures Unarmed(c.CheckEffect(now)) && c.CheckEffect(now).slot == c.slot
  {
    hide Elapsed, Core.TookEffect;
  }

  lemma PollUnarmed(c: Core, now: Millis)
    requires Unarmed(c)
    ensures !c.Choose(now).Again?
    ensures c.Choose(now).Nothing? ==> Unarmed(c.Poll(now))
  {
    EffectUnarmed(c, now);
    RestOfReady(c.CheckEffect(now), now);
    ReadyRepeat(c, now);
    assert c.Ready(now).TakeStop().watch.repeat == NoCommand;
    assert c.Ready(now).TakeStop().watch.awaited == NoCommand;
    hide Core.Ready, Core.TakeStop, Core.CheckEffect, Core.HonourCancel, Core.Expire;
  }

  lemma ReceivedUnarmed(c: Core, input: Input)
    requires input.Exchange? && Unarmed(c)
    ensures Unarmed(Received(c, input))
  {
  }

  lemma CallUnarmed(c: Core, now: Millis, input: Input)
    requires Possible(input) && !input.Exchange?
    ensures c.slot.cancelWatch ==> Next(c, now, input).slot.cancelWatch
  {
    if input.Report? {
      ReportTouches(c.LinkUp(), input.words, 0);
      hide Core.WriteFrom;
    }
  }

  lemma StepUnarmed(c: Core, now: Millis, input: Input)
    requires Possible(input) && Unarmed(c)
    ensures !Sent(c, now, input).Again?
    ensures Sent(c, now, input).Nothing? ==> Unarmed(Next(c, now, input))
  {
    if input.Exchange? {
      ReceivedUnarmed(c, input);
      ReceivedTouches(c, input);
      PollUnarmed(Received(c, input), now);
      ExchangeParts(c, now, input);
      hide Core.Poll, Core.Choose, Received, Next;
    } else {
      CallUnarmed(c, now, input);
      StepTouches(c, now, input);
      hide Next;
    }
  }

  lemma {:induction false} UnarmedUntilFresh(r: Run, i: nat, k: nat)
    requires IsRun(r) && i <= k < |r.states| && Unarmed(r.states[i])
    ensures LastFresh(r, k) < i ==> Unarmed(r.states[k])
    ensures k < |r.inputs| && SentAt(r, k).Again? ==> LastFresh(r, k) >= i
  {
    hide Sent, Next;
    if k > i {
      UnarmedUntilFresh(r, i, k - 1);
      assert IsStep(r, k - 1);
      if LastFresh(r, k) < i {
        StepUnarmed(r.states[k - 1], Shown(r.times[k - 1]), r.inputs[k - 1]);
      }
    }
    if k < |r.inputs| && LastFresh(r, k) < i {
      assert IsStep(r, k);
      StepUnarmed(r.states[k], Shown(r.times[k]), r.inputs[k]);
    }
  }

  /** Whether step `i` is a stop that was accepted, the loop's own or the go-to stop of a report. */
  ghost predicate StopsAt(r: Run, i: nat)
    requires IsRun(r) && i < |r.inputs|
  {
    FilledAt(r, i) == Some(Stop) && !r.inputs[i].Press?
  }

  lemma StopCancels(c: Core, now: Millis, input: Input)
    requires Possible(input) && Filled(c, input) == Some(Stop) && !input.Press?
    ensures Next(c, now, input).slot.cancelWatch
  {
    hide Core.WriteFrom;
  }

  /**
   * After an accepted stop no earlier press goes out, and no repeat or re-send of
   * one: whatever goes out was asked for by the stop or after it.
   */
  lemma {:induction false} NothingOutlivesAStop(r: Run, i: nat, k: nat)
    requires IsRun(r) && i < k < |r.inputs| && StopsAt(r, i) && !SentAt(r, k).Nothing?
    ensures Asked(r, k) >= i && Origin(r, k) > i
  {
    assert IsStep(r, i);
    StopCancels(r.states[i], Shown(r.times[i]), r.inputs[i]);
    hide Sent, Filled, Next;
    UnarmedUntilFresh(r, i + 1, k);
    LastFillIs(r, Origin(r, k));
  }

  // ----- a pause -----

  /** While a pause is requested nothing goes out and nothing is accepted. */
  lemma PausedIsQuiet(c: Core, now: Millis, input: Input)
    requires Possible(input) && c.pause.requested
    ensures Sent(c, now, input) == Nothing && Filled(c, input) == None
    ensures Next(c, now, input).pause.requested <==> input != EndPause
  {
    hide Core.Poll, Core.Rearm;
    match input
    case Report(words) =>
      ReportTouches(c.LinkUp(), words, 0);
      hide Core.WriteFrom;
    case Exchange(_, _, _) =>
      ReceivedTouches(c, input);
      hide Received;
    case _ =>
  }

  /** The pause was requested at `j` and a status poll answered at `p`, before it ended. */
  ghost predicate PausePolled(r: Run, j: nat, p: nat)
    requires IsRun(r)
  {
    && j < p < |r.inputs|
    && r.inputs[j] == RequestPause
    && (forall m :: j < m < p ==> r.inputs[m] != EndPause)
    && r.inputs[p].Exchange? && r.inputs[p].poll
  }

  lemma RequestPauses(c: Core, now: Millis)
    ensures Next(c, now, RequestPause).pause.requested && Filled(c, RequestPause) == None
  {
  }

  lemma {:induction false} PauseLasts(r: Run, j: nat, p: nat, m: nat)
    requires IsRun(r) && PausePolled(r, j, p) && j < m <= p
    ensures r.states[m].pause.requested && SentAt(r, m) == Nothing && FilledAt(r, m) == None
  {
    hide Next, Sent, Filled;
    assert IsStep(r, m - 1) && IsStep(r, m);
    if m == j + 1 {
      RequestPauses(r.states[j], Shown(r.times[j]));
    } else {
      PauseLasts(r, j, p, m - 1);
      PausedIsQuiet(r.states[m - 1], Shown(r.times[m - 1]), r.inputs[m - 1]);
    }
    PausedIsQuiet(r.states[m], Shown(r.times[m]), r.inputs[m]);
  }

  lemma {:induction false} DroppedStaysDropped(r: Run, i: nat, k: nat)
    requires IsRun(r) && i < k < |r.states| && r.inputs[i] == DropQueued
    ensures r.states[k].slot.next != NoCommand ==> LastFill(r, k) > i
  {
    assert IsStep(r, k - 1);
    if k > i + 1 {
      DroppedStaysDropped(r, i, k - 1);
      StepSlot(r.states[k - 1], Shown(r.times[k - 1]), r.inputs[k - 1]);
      hide Next, Filled;
    }
  }

  lemma PausedPollUnarms(c: Core, now: Millis, input: Input)
    requires Possible(input) && input.Exchange? && input.poll && c.pause.requested
    ensures Unarmed(Next(c, now, input))
  {
    ExchangeParts(c, now, input);
    ReceivedTouches(c, input);
    hide Received, Next;
  }

  lemma {:induction false} PollEndsTheWatch(r: Run, j: nat, p: nat, k: nat)
    requires IsRun(r) && PausePolled(r, j, p) && p < k < |r.inputs| && !SentAt(r, k).Nothing?
    ensures Origin(r, k) > p
  {
    hide Next, Sent, Filled;
    assert IsStep(r, p);
    PauseLasts(r, j, p, p);
    PausedPollUnarms(r.states[p], Shown(r.times[p]), r.inputs[p]);
    UnarmedUntilFresh(r, p + 1, k);
  }

  lemma OnlyTheSlotIsFresh(r: Run, k: nat)
    requires IsRun(r) && k < |r.inputs| && SentAt(r, k).Fresh?
    ensures r.states[k].slot.next != NoCommand
  {
    assert IsStep(r, k);
    FreshComesFromSlot(r.states[k], Shown(r.times[k]), r.inputs[k]);
  }

  /**
   * An announced pause drops what is queued, then requests. Once a status poll has
   * been answered during it, nothing accepted before the drop ever goes out again,
   * nor anything asked for while the pause stood, repeats and re-sends included.
   */
  lemma {:induction false} NothingOutlivesAPause(r: Run, i: nat, j: nat, p: nat, k: nat)
    requires IsRun(r) && i < j && PausePolled(r, j, p) && p < k < |r.inputs|
    requires r.inputs[i] == DropQueued && !SentAt(r, k).Nothing?
    ensures Origin(r, k) > p
    ensures Asked(r, k) > p || i < Asked(r, k) < j
  {
    hide Next, Sent, Filled;
    PollEndsTheWatch(r, j, p, k);
    DroppedStaysDropped(r, i, Origin(r, k));
    OnlyTheSlotIsFresh(r, Origin(r, k));
    if j < Asked(r, k) <= p {
      PauseLasts(r, j, p, Asked(r, k));
    }
    RequestPauses(r.states[j], 0);
  }
}
