/**
 * What has to go out, told from the history alone: which call is in the queue,
 * when it leaves, and when an answer that was lost or a door that did not act
 * brings it out again. Each is an if-and-only-if over every run.
 */
module SendRuns {
  import opened HcpTypes
  import opened HcpState
  import opened Lifecycle
  import opened Runs
  import opened StopRuns
  import GotoRuns

  // ----- the pause and the queue, by what happened -----

  /** The last word about a pause was to request one. */
  ghost predicate InPause(r: Run, k: nat)
    requires IsRun(r) && k < |r.states|
  {
    k > 0 && (r.inputs[k - 1] == RequestPause || (r.inputs[k - 1] != EndPause && InPause(r, k - 1)))
  }

  lemma StepPause(c: Core, now: Millis, input: Input)
    requires Possible(input)
    ensures Next(c, now, input).pause.requested
      <==> input == RequestPause || (input != EndPause && c.pause.requested)
  {
    hide Core.Poll, Core.WriteFrom, Core.Rearm;
    match input
    case Exchange(_, _, _) =>
      ExchangeTouches(c, now, input);
      hide Next;
    case Report(words) => ReportTouches(c.LinkUp(), words, 0);
    case _ =>
  }

  lemma {:induction false} InPauseIs(r: Run, k: nat)
    requires IsRun(r) && k < |r.states|
    ensures r.states[k].pause.requested <==> InPause(r, k)
  {
    hide Next;
    if k > 0 {
      InPauseIs(r, k - 1);
      assert IsStep(r, k - 1);
      StepPause(r.states[k - 1], Shown(r.times[k - 1]), r.inputs[k - 1]);
    }
  }

  /** At step `k` a full status poll is answered outside a pause: the one kind of exchange that can carry a command. */
  ghost predicate Polls(r: Run, k: nat)
    requires IsRun(r) && k < |r.inputs|
  {
    r.inputs[k].Exchange? && r.inputs[k].poll && !InPause(r, k)
  }

  /** Nothing is left in the queue by this step but what it puts there itself. */
  ghost predicate Clears(r: Run, k: nat)
    requires IsRun(r) && k < |r.inputs|
  {
    Polls(r, k) || r.inputs[k] == DropQueued || r.inputs[k] == CheckSilence(true)
  }

  /** The accepted call whose command waits before step `k`. */
  ghost function Queue(r: Run, k: nat): (q: Option<nat>)
    requires IsRun(r) && k < |r.states|
    ensures q.Some? ==> q.value < k && FilledAt(r, q.value).Some?
  {
    if k == 0 then None
    else if FilledAt(r, k - 1).Some? then Some(k - 1)
    else if Clears(r, k - 1) then None
    else Queue(r, k - 1)
  }

  /** What waits, nothing where no call does. */
  ghost function Waiting(r: Run, k: nat): Command
    requires IsRun(r) && k < |r.states|
  {
    match Queue(r, k)
    case None => NoCommand
    case Some(f) => FilledAt(r, f).value
  }

  lemma PollEmpties(c: Core, now: Millis)
    ensures c.Poll(now).slot.next == NoCommand && !c.Poll(now).slot.cancelWatch
  {
    hide Core.CheckEffect, Elapsed, Core.RepeatStillMakesSense;
    EffectSlot(c, now);
  }

  lemma EffectSlot(c: Core, now: Millis)
    ensures c.CheckEffect(now).slot == c.slot && c.CheckEffect(now).door.state == c.door.state
    ensures c.CheckEffect(now).door.lightOn == c.door.lightOn && c.CheckEffect(now).stateWrites == c.stateWrites
  {
    hide Elapsed, Core.TookEffect;
  }

  /** What one step does to the slot. */
  lemma StepQueue(c: Core, now: Millis, input: Input)
    requires Possible(input)
    ensures var d := Next(c, now, input);
      match Filled(c, input)
      case Some(cmd) => d.slot.next == cmd && d.slot.nextOn == now
      case None =>
        if (input.Exchange? && input.poll && !c.pause.requested) || input == DropQueued || input == CheckSilence(true)
        then d.slot.next == NoCommand else d.slot.next == c.slot.next && d.slot.nextOn == c.slot.nextOn
  {
    StepSlot(c, now, input);
    hide Core.Poll, Core.WriteFrom, Received;
    match input
    case Exchange(_, _, _) =>
      ExchangeParts(c, now, input);
      ReceivedTouches(c, input);
      PollEmpties(Received(c, input), now);
      hide Next;
    case Report(words) =>
      ReportTouches(c.LinkUp(), words, 0);
    case _ =>
  }

  /** The slot holds what waits in the queue, stamped with the time of its call. */
  lemma {:induction false} QueueIs(r: Run, k: nat)
    requires IsRun(r) && k < |r.states|
    ensures r.states[k].slot.next == Waiting(r, k)
    ensures Queue(r, k).Some? ==> r.states[k].slot.nextOn == Shown(r.times[Queue(r, k).value])
  {
    hide Next, Filled;
    if k > 0 {
      QueueIs(r, k - 1);
      InPauseIs(r, k - 1);
      assert IsStep(r, k - 1);
      StepQueue(r.states[k - 1], Shown(r.times[k - 1]), r.inputs[k - 1]);
    }
  }

  // ----- a command goes out for the first time -----

  /** A call that means something now: a stop does for a moving door only. */
  predicate Means(cmd: Command, state: DoorState) {
    cmd != NoCommand && (cmd == Stop ==>
      state == Opening || state == Closing || state == MoveHalf || state == MoveVenting)
  }

  lemma ChoosesFresh(c: Core, now: Millis)
    ensures c.Choose(now).Fresh? <==> Means(c.slot.next, c.door.state) && Elapsed(now, c.slot.nextOn) <= 2000
    ensures c.Choose(now).Fresh? ==> c.Choose(now).cmd == Meant(c.slot.next)
  {
    hide Core.CheckEffect, Elapsed, Core.RepeatStillMakesSense;
    EffectSlot(c, now);
  }

  /**
   * A call goes out with the first full status poll after it that is answered
   * outside a pause, if and only if it has then waited for at most 2000 ms, on a
   * clock of 32 bits, and means something: every press that is accepted in time is
   * sent, and sent as what it is.
   */
  lemma {:induction false} GoesOutIff(r: Run, k: nat)
    requires IsRun(r) && k < |r.inputs| && Polls(r, k)
    ensures SentAt(r, k).Fresh? <==>
      && Queue(r, k).Some? && Means(Waiting(r, k), r.states[k].door.state)
      && (r.times[k] - r.times[Queue(r, k).value]) % CLOCK_SPAN <= 2000
    ensures SentAt(r, k).Fresh? ==> SentAt(r, k).cmd == Meant(Waiting(r, k))
  {
    hide IsStep, Sent, Filled, Elapsed, Means, Meant;
    QueueIs(r, k);
    InPauseIs(r, k);
    SendsFresh(r.states[k], Shown(r.times[k]), r.inputs[k]);
    NothingMeansNothing(r.states[k].door.state);
    if Queue(r, k).Some? {
      WaitIsReal(r, k, Queue(r, k).value);
    }
  }

  lemma WaitIsReal(r: Run, k: nat, f: nat)
    requires IsRun(r) && f <= k < |r.inputs|
    ensures Elapsed(Shown(r.times[k]), Shown(r.times[f])) == (r.times[k] - r.times[f]) % CLOCK_SPAN
    ensures r.times[k] >= r.times[f]
  {
    hide IsStep, Elapsed;
    ElapsedIsReal(r.times[k], r.times[f]);
  }

  lemma SendsFresh(c: Core, now: Millis, input: Input)
    requires input.Exchange? && input.poll && !c.pause.requested
    ensures var sent := Sent(c, now, input);
      && (sent.Fresh? <==> Means(c.slot.next, c.door.state) && Elapsed(now, c.slot.nextOn) <= 2000)
      && (sent.Fresh? ==> sent.cmd == Meant(c.slot.next))
  {
    hide Received, Core.Choose, Elapsed, Means;
    ReceivedTouches(c, input);
    ChoosesFresh(Received(c, input), now);
  }

  lemma NothingMeansNothing(state: DoorState)
    ensures !Means(NoCommand, state)
  {
  }

  // ----- the last answer, and whether it arrived -----

  /** The last exchange before step `k`, or -1: every one of them was answered. */
  ghost function LastAnswer(r: Run, k: nat): (e: int)
    requires IsRun(r) && k < |r.states|
    ensures -1 <= e < k && (e >= 0 ==> r.inputs[e].Exchange?)
  {
    if k == 0 then -1 else if r.inputs[k - 1].Exchange? then k - 1 else LastAnswer(r, k - 1)
  }

  /** What that answer carried. */
  ghost function Told(r: Run, k: nat): Command
    requires IsRun(r) && k < |r.states|
  {
    if LastAnswer(r, k) < 0 then NoCommand else CommandOf(SentAt(r, LastAnswer(r, k)))
  }

  /** The drive's count in an exchange; the top bit is no part of it. */
  function CountIn(input: Input): nat
    requires input.Exchange?
  {
    if input.counterByte >= 0x80 then input.counterByte - 0x80 else input.counterByte
  }

  function CountAfter(count: nat): nat {
    if count == 0x7F then 1 else count + 1
  }

  lemma ExchangeReceipt(c: Core, now: Millis, input: Input)
    requires input.Exchange? && Possible(input)
    ensures var d := Next(c, now, input);
      && d.receipt == Receipt(CountAfter(CountIn(input)), CountIn(input), true)
      && d.watch.lastSent == CommandOf(Sent(c, now, input))
  {
    var s := Received(c, input);
    assert s.receipt.txCounter == CountIn(input) && s.receipt.valid;
    ReceivedTouches(c, input);
    ExchangeParts(c, now, input);
    PollTouches(s, now);
    PollNotesChoice(s, now);
    hide Next, Received, Core.Poll, Core.Choose;
  }

  /** The receipt is that of the last exchange, and what it carried is remembered until the next. */
  lemma {:induction false} AnswerIs(r: Run, k: nat)
    requires IsRun(r) && k < |r.states|
    ensures r.states[k].watch.lastSent == Told(r, k)
    ensures var e := LastAnswer(r, k);
      if e < 0 then !r.states[k].receipt.valid
      else r.states[k].receipt == Receipt(CountAfter(CountIn(r.inputs[e])), CountIn(r.inputs[e]), true)
  {
    hide Next, Sent;
    if k > 0 {
      AnswerIs(r, k - 1);
      assert IsStep(r, k - 1);
      var c, now, input := r.states[k - 1], Shown(r.times[k - 1]), r.inputs[k - 1];
      if input.Exchange? {
        ExchangeReceipt(c, now, input);
      } else {
        StepTouches(c, now, input);
      }
    }
  }

  /** The drive asks for its status with a count that was answered: the answer was lost, and a command with it. */
  ghost predicate Misses(r: Run, k: nat)
    requires IsRun(r) && k < |r.inputs|
  {
    && r.inputs[k].Exchange? && r.inputs[k].command == 0x03 && LastAnswer(r, k) >= 0
    && CountIn(r.inputs[k]) == CountIn(r.inputs[LastAnswer(r, k)])
    && Told(r, k) != NoCommand && Waiting(r, k) == NoCommand
  }

  /** How often the command taken last has been missed before step `k`. */
  ghost function Losses(r: Run, k: nat): nat
    requires IsRun(r) && k < |r.states|
  {
    if k == 0 || SentAt(r, k - 1).Fresh? then 0
    else Losses(r, k - 1) + (if Misses(r, k - 1) then 1 else 0)
  }

  /** The loop has asked for the watch to be dropped, and no poll has come since. */
  ghost predicate Cancelled(r: Run, k: nat)
    requires IsRun(r) && k < |r.states|
  {
    k > 0 && ((FilledAt(r, k - 1) == Some(Stop) && !r.inputs[k - 1].Press?)
              || (!Polls(r, k - 1) && Cancelled(r, k - 1)))
  }

  lemma StepCancel(c: Core, now: Millis, input: Input)
    requires Possible(input)
    ensures Next(c, now, input).slot.cancelWatch <==>
      || (Filled(c, input) == Some(Stop) && !input.Press?)
      || (!(input.Exchange? && input.poll && !c.pause.requested) && c.slot.cancelWatch)
  {
    hide Core.Poll, Core.WriteFrom, Received;
    match input
    case Exchange(_, _, _) =>
      ExchangeParts(c, now, input);
      ReceivedTouches(c, input);
      PollEmpties(Received(c, input), now);
      hide Next;
    case Report(words) =>
      ReportTouches(c.LinkUp(), words, 0);
    case _ =>
  }

  lemma {:induction false} CancelIs(r: Run, k: nat)
    requires IsRun(r) && k < |r.states|
    ensures r.states[k].slot.cancelWatch <==> Cancelled(r, k)
  {
    hide Next, Filled;
    if k > 0 {
      CancelIs(r, k - 1);
      InPauseIs(r, k - 1);
      assert IsStep(r, k - 1);
      StepCancel(r.states[k - 1], Shown(r.times[k - 1]), r.inputs[k - 1]);
    }
  }

  // ----- the state word -----

  /** The state word reported last, 0 before the first. */
  ghost function LastWord(r: Run, k: nat): Word
    requires IsRun(r) && k < |r.states|
  {
    if k == 0 then 0
    else if r.inputs[k - 1].Report? && |r.inputs[k - 1].words| >= 3 then r.inputs[k - 1].words[2]
    else LastWord(r, k - 1)
  }

  /** A telegram reports another state word than the one before. */
  ghost predicate Changes(r: Run, m: nat)
    requires IsRun(r) && m < |r.inputs|
  {
    r.inputs[m].Report? && |r.inputs[m].words| >= 3 && r.inputs[m].words[2] != LastWord(r, m)
  }

  lemma WordWrites(c: Core, val: Word)
    ensures var d := c.WriteBcast(2, val);
      d.bcast[2] == val && d.stateWrites == c.stateWrites + (if val != c.bcast[2] then 1 else 0)
  {
  }

  lemma OtherWrites(c: Core, i: nat, val: Word)
    requires i < 9 && i != 2
    ensures var d := c.WriteBcast(i, val); d.bcast[2] == c.bcast[2] && d.stateWrites == c.stateWrites
  {
    LampsWrite(c, val);
    hide Core.ReportFault, Core.ReportLight, Core.CountState, Core.ShowState;
  }

  lemma LampsWrite(c: Core, val: Word)
    ensures var d := c.ReportFault(val).ReportLight(val); d.bcast == c.bcast && d.stateWrites == c.stateWrites
  {
  }

  lemma {:induction false} ReportWrites(c: Core, words: seq<Word>, i: nat)
    requires i <= |words| <= 9
    ensures var d := c.WriteFrom(words, i);
      if i <= 2 < |words|
      then d.bcast[2] == words[2] && d.stateWrites == c.stateWrites + (if words[2] != c.bcast[2] then 1 else 0)
      else d.bcast[2] == c.bcast[2] && d.stateWrites == c.stateWrites
    decreases |words| - i
  {
    hide Core.WriteBcast;
    if i < |words| {
      if i == 2 {
        WordWrites(c, words[2]);
      } else {
        OtherWrites(c, i, words[i]);
      }
      ReportWrites(c.WriteBcast(i, words[i]), words, i + 1);
    }
  }

  lemma StepWord(c: Core, now: Millis, input: Input)
    requires Possible(input)
    ensures var d := Next(c, now, input);
      if input.Report? && |input.words| >= 3
      then && d.bcast[2] == input.words[2]
           && d.stateWrites == c.stateWrites + (if input.words[2] != c.bcast[2] then 1 else 0)
      else d.bcast[2] == c.bcast[2] && d.stateWrites == c.stateWrites
  {
    hide Core.Poll, Core.WriteFrom, Next;
    if input.Report? {
      ReportWrites(c.LinkUp(), input.words, 0);
      GotoRuns.ReportIs(c, now, input);
    } else if input.Exchange? {
      ExchangeTouches(c, now, input);
      GotoRuns.ExchangeReport(c, now, input);
    } else {
      StepTouches(c, now, input);
      GotoRuns.CallReport(c, now, input);
      CallTouches(c, now, input);
    }
  }

  lemma {:induction false} WordIs(r: Run, k: nat)
    requires IsRun(r) && k < |r.states|
    ensures r.states[k].bcast[2] == LastWord(r, k)
  {
    hide Next;
    if k > 0 {
      WordIs(r, k - 1);
      assert IsStep(r, k - 1);
      StepWord(r.states[k - 1], Shown(r.times[k - 1]), r.inputs[k - 1]);
    }
  }

  /** Between two steps the count of changes stands still if and only if no telegram changed the word. */
  lemma {:induction false} WritesIff(r: Run, f: nat, k: nat)
    requires IsRun(r) && f <= k < |r.states|
    ensures r.states[f].stateWrites <= r.states[k].stateWrites
    ensures r.states[k].stateWrites == r.states[f].stateWrites <==> forall m :: f <= m < k ==> !Changes(r, m)
  {
    hide Next;
    if f < k {
      WritesIff(r, f, k - 1);
      WordIs(r, k - 1);
      assert IsStep(r, k - 1);
      StepWord(r.states[k - 1], Shown(r.times[k - 1]), r.inputs[k - 1]);
      hide LastWord;
      assert Changes(r, k - 1) <==> r.states[k].stateWrites != r.states[k - 1].stateWrites;
    }
  }

  // ----- a command goes out again because its answer was lost -----

  /** The door is reported where this command leads, or on the way there. */
  predicate Leads(cmd: Command, door: Door) {
    match cmd
    case Open => door.state == Opening || door.state == DoorOpen
    case Close => door.state == Closing || door.state == DoorClosed
    case Half => door.state == MoveHalf || door.state == HalfOpen
    case Vent => door.state == MoveVenting || door.state == Venting
    case LightOn => door.lightOn
    case LightOff => !door.lightOn
    case _ => false
  }

  /** Nothing is armed beside what the last answer carried, and a re-send leaves nothing to watch for. */
  predicate Tidy(c: Core) {
    && (c.watch.lastSent != NoCommand ==> c.watch.repeat == NoCommand)
    && (c.watch.repeatsSent > 0 ==> c.watch.awaited == NoCommand)
  }

  /** This exchange repeats the count that was answered last, and what that answer carried is free to go out again. */
  predicate Lost(c: Core, input: Input) {
    && input.Exchange? && input.command == 0x03 && c.receipt.valid && CountIn(input) == c.receipt.txCounterPrev
    && CountIn(input) != c.receipt.txCounter && c.watch.lastSent != NoCommand && c.slot.next == NoCommand
  }

  lemma ReceivesLoss(c: Core, input: Input)
    requires input.Exchange?
    ensures var s := Received(c, input);
      s.watch == (if !Lost(c, input) then c.watch.(lastSent := NoCommand)
                  else if c.watch.repeatsSent >= c.caps.lostAnswerRepeats then c.watch.(lastSent := NoCommand)
                  else c.watch.(repeatsSent := c.watch.repeatsSent + 1, repeat := c.watch.lastSent,
                                awaited := NoCommand, lastSent := NoCommand))
  {
  }

  /** A poll that takes nothing leaves the count of re-sends; one that does starts it again. */
  lemma PollCounts(c: Core, now: Millis)
    requires c.watch.repeatsSent > 0 ==> c.watch.awaited == NoCommand
    ensures var d := c.Poll(now);
      && d.watch.repeatsSent == (if c.Choose(now).Fresh? then 0 else c.watch.repeatsSent)
      && d.watch.repeat == NoCommand
      && (d.watch.repeatsSent > 0 ==> d.watch.awaited == NoCommand)
  {
    hide Core.CheckEffect, Elapsed, Core.RepeatStillMakesSense;
    EffectCounts(c, now);
    RestOfReady(c.CheckEffect(now), now);
  }

  lemma EffectCounts(c: Core, now: Millis)
    ensures var d := c.CheckEffect(now);
      && d.watch.repeatsSent == c.watch.repeatsSent
      && (c.watch.awaited == NoCommand ==> d.watch == c.watch)
  {
    hide Elapsed, Core.TookEffect;
  }

  lemma StepLosses(c: Core, now: Millis, input: Input)
    requires Possible(input) && Tidy(c)
    ensures var d, sent := Next(c, now, input), Sent(c, now, input);
      && Tidy(d)
      && d.watch.repeatsSent == (if sent.Fresh? then 0
                                 else if Lost(c, input) && c.watch.repeatsSent < c.caps.lostAnswerRepeats
                                 then c.watch.repeatsSent + 1 else c.watch.repeatsSent)
  {
    hide Next;
    if input.Exchange? {
      ExchangeParts(c, now, input);
      ReceivesLoss(c, input);
      ReceivedTouches(c, input);
      PollCounts(Received(c, input), now);
      hide Received, Core.Poll, Core.Choose, Lost;
    } else {
      StepTouches(c, now, input);
    }
  }

  lemma MissesIff(r: Run, k: nat)
    requires IsRun(r) && k < |r.inputs|
    ensures Misses(r, k) <==> Lost(r.states[k], r.inputs[k])
  {
    hide IsRun, Sent, Filled, CommandOf;
    RunShape(r);
    AnswerIs(r, k);
    QueueIs(r, k);
    hide Told, Waiting;
  }

  /** The count of re-sends is the count of losses, as far as it goes. */
  lemma {:induction false} LossesAre(r: Run, k: nat)
    requires IsRun(r) && k < |r.states|
    ensures Tidy(r.states[k])
    ensures var cap := r.states[0].caps.lostAnswerRepeats;
      r.states[k].watch.repeatsSent == (if Losses(r, k) < cap then Losses(r, k) else cap)
  {
    hide Next, Sent, Lost, Misses;
    if k > 0 {
      LossesAre(r, k - 1);
      CapsStay(r, k - 1);
      MissesIff(r, k - 1);
      assert IsStep(r, k - 1);
      StepLosses(r.states[k - 1], Shown(r.times[k - 1]), r.inputs[k - 1]);
    }
  }

  /** What a poll makes of a loss. */
  lemma ChoosesAgain(c: Core, now: Millis, cmd: Command)
    requires cmd != NoCommand && c.slot.next == NoCommand && c.watch.awaited == NoCommand && c.watch.repeat == cmd
    ensures c.Choose(now) == (
      if c.slot.cancelWatch || (if cmd == Impulse then c.stateWrites != c.watch.stateWritesWhenSent
                                else Leads(cmd, c.door))
      then Nothing else Again(cmd))
  {
  }

  lemma ChoosesNothing(c: Core, now: Millis)
    requires c.slot.next == NoCommand && c.watch.awaited == NoCommand && c.watch.repeat == NoCommand
    ensures c.Choose(now) == Nothing
  {
  }

  lemma SendsAgain(c: Core, now: Millis, input: Input)
    requires Possible(input) && input.Exchange? && input.poll && !c.pause.requested && Tidy(c) && Lost(c, input)
    ensures var cmd, sent, cap := c.watch.lastSent, Sent(c, now, input), c.caps.lostAnswerRepeats;
      && (c.watch.repeatsSent < cap ==>
            sent == (if c.slot.cancelWatch || (if cmd == Impulse then c.stateWrites != c.watch.stateWritesWhenSent
                                               else Leads(cmd, c.door))
                     then Nothing else Again(cmd)))
      && (c.watch.repeatsSent >= cap > 0 ==> sent == Nothing)
  {
    ReceivesLoss(c, input);
    ReceivedTouches(c, input);
    var s := Received(c, input);
    if c.watch.repeatsSent < c.caps.lostAnswerRepeats {
      ChoosesAgain(s, now, c.watch.lastSent);
    } else if c.caps.lostAnswerRepeats > 0 {
      ChoosesNothing(s, now);
    }
    hide Received, Core.Choose, Leads, Lost;
  }

  /** What an answer carried was taken before it. */
  ghost function TakenAt(r: Run, k: nat): (f: nat)
    requires IsRun(r) && k < |r.states| && Told(r, k) != NoCommand
    ensures f < k && SentAt(r, f) == Fresh(Told(r, k)) && f == LastFresh(r, k)
  {
    hide Sent, Next, Filled;
    AnswerIs(r, k);
    BudgetHolds(r, k);
    NothingTaken(r, k);
    StampHolds(r, k);
    LastFresh(r, k)
  }

  /** The door shows that the command taken at `f` need not go out again. */
  ghost predicate Settles(r: Run, f: nat, k: nat, cmd: Command)
    requires IsRun(r) && f <= k < |r.states|
  {
    if cmd == Impulse then exists m :: f <= m < k && Changes(r, m) else Leads(cmd, r.states[k].door)
  }

  /**
   * Whatever was lost before: a command whose answer was lost goes out again with the
   * very poll that shows the loss, unless a newer call waits, if and only if it was
   * missed fewer times than the bus allows since it was taken, nobody has stopped
   * meanwhile, and the door has not done what it asks.
   */
  lemma {:induction false} LostGoesOutAgainIff(r: Run, k: nat)
    requires IsRun(r) && k < |r.inputs| && Polls(r, k) && Misses(r, k)
    ensures var cap := r.states[0].caps.lostAnswerRepeats;
      && (Losses(r, k) < cap ==>
            SentAt(r, k) == (if Cancelled(r, k) || Settles(r, TakenAt(r, k), k, Told(r, k))
                             then Nothing else Again(Told(r, k))))
      && (Losses(r, k) >= cap > 0 ==> SentAt(r, k) == Nothing)
  {
    hide Next, Sent, Filled, IsRun, Lost, Told, Leads;
    RunShape(r);
    AnswerIs(r, k);
    InPauseIs(r, k);
    CancelIs(r, k);
    LossesAre(r, k);
    MissesIff(r, k);
    CapsStay(r, k);
    StampHolds(r, k);
    WritesIff(r, TakenAt(r, k), k);
    PossibleAt(r, k);
    SendsAgain(r.states[k], Shown(r.times[k]), r.inputs[k]);
  }

  lemma PossibleAt(r: Run, k: nat)
    requires IsRun(r) && k < |r.inputs|
    ensures Possible(r.inputs[k])
  {
    assert IsStep(r, k);
  }
}
