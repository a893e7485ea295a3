/**
 * What a poll brings out again, told from the history alone. With it every answer
 * to a poll is known exactly: what waits, what was lost, what the door has not acted
 * on two seconds later, or nothing; and so is when a command is given up for good.
 */
module ActRuns {
  import opened HcpTypes
  import opened Lifecycle
  import opened Runs
  import opened StopRuns
  import opened SendRuns

  // ----- by what happened -----

  /** An answer is found lost, and what it carried may go out again. */
  ghost predicate Resends(r: Run, k: nat)
    requires IsRun(r) && k < |r.inputs|
  {
    Misses(r, k) && Losses(r, k) < 3
  }

  /** Found lost in an exchange that was no full poll, and not brought out by one since. */
  ghost function Owed(r: Run, k: nat): Command
    requires IsRun(r) && k < |r.states|
  {
    if k == 0 || (r.inputs[k - 1].Exchange? && r.inputs[k - 1].poll) then NoCommand
    else if Resends(r, k - 1) then Told(r, k - 1)
    else Owed(r, k - 1)
  }

  /** The door shows what was asked for at `f`, or has changed its word since. */
  ghost predicate Acts(r: Run, f: nat, k: nat)
    requires IsRun(r) && f < k < |r.states|
  {
    Leads(CommandOf(SentAt(r, f)), r.states[k].door) || exists m :: f <= m < k && Changes(r, m)
  }

  /** The time between two steps, on a clock of 32 bits. */
  ghost function Wait(r: Run, f: nat, k: nat): nat
    requires IsRun(r) && f <= k < |r.inputs| == |r.times|
  {
    NeverBack(r, f, k);
    (r.times[k] - r.times[f]) % CLOCK_SPAN
  }

  /** At this poll it is still waited for: the door has not acted, no newer call waits, and it is not too late. */
  ghost predicate Pending(r: Run, f: nat, k: nat)
    requires IsRun(r) && f < k < |r.inputs| == |r.times| == |r.states| - 1
  {
    !Acts(r, f, k) && Waiting(r, k) == NoCommand && Wait(r, f, k) <= 5000
  }

  /** The step that sent the command whose effect is waited for before step `k`, or -1. */
  ghost function Watched(r: Run, k: nat): (w: int)
    requires IsRun(r) && k < |r.states|
    ensures -1 <= w < k
  {
    if k == 0 then -1
    else if SentAt(r, k - 1).Fresh? then k - 1
    else if Resends(r, k - 1) then -1
    else
      var w := Watched(r, k - 1);
      if w < 0 || !(r.inputs[k - 1].Exchange? && r.inputs[k - 1].poll) then w
      else if Polls(r, k - 1) && Pending(r, w, k - 1) && !Cancelled(r, k - 1) then w
      else -1
  }

  /** Something has gone out again since. */
  ghost predicate Repeated(r: Run, f: nat, k: nat)
    requires IsRun(r) && k <= |r.inputs|
  {
    exists m :: f < m < k && SentAt(r, m).Again?
  }

  /** What waits goes out now. */
  ghost predicate Goes(r: Run, k: nat)
    requires IsRun(r) && k < |r.inputs| == |r.times| == |r.states| - 1
  {
    && Queue(r, k).Some? && Means(Waiting(r, k), r.states[k].door.state)
    && Wait(r, Queue(r, k).value, k) <= 2000
  }

  lemma NeverBack(r: Run, i: nat, j: nat)
    requires IsRun(r) && i <= j < |r.inputs|
    ensures |r.times| == |r.inputs| && r.times[i] <= r.times[j]
  {
    hide IsStep;
  }

  // ----- the state that keeps track of it -----

  /** `cmd` went out at `at` and its effect is waited for, it went out again or not, or `owed` was found lost. */
  predicate Watches(c: Core, cmd: Command, at: Millis, repeated: bool, owed: Command) {
    && c.caps == HCP2_CAPABILITIES && c.watch.awaited == cmd && c.watch.repeat == owed
    && (cmd != NoCommand ==>
          && owed == NoCommand && c.watch.awaitedSince == at
          && (if repeated then c.watch.confirmRepeats == 1
              else c.watch.confirmRepeats == 0 && c.watch.lastSentAt == at))
  }

  /** What a poll has to wait for still. */
  predicate Waits(c: Core, cmd: Command, wait: nat) {
    && cmd != NoCommand && !Leads(cmd, c.door) && c.stateWrites == c.watch.stateWritesWhenSent
    && c.slot.next == NoCommand && wait <= 5000
  }

  /** A command that nothing has come of, too late. */
  predicate Expires(c: Core, cmd: Command, wait: nat) {
    && cmd != NoCommand && !Leads(cmd, c.door) && c.stateWrites == c.watch.stateWritesWhenSent
    && c.slot.next == NoCommand && wait > 5000
  }

  /** What a poll brings out that takes nothing from the queue. */
  function Brings(c: Core, cmd: Command, repeated: bool, owed: Command, wait: nat): Choice {
    if c.slot.cancelWatch then Nothing
    else if owed != NoCommand then
      (if if owed == Impulse then c.stateWrites != c.watch.stateWritesWhenSent else Leads(owed, c.door)
       then Nothing else Again(owed))
    else if Waits(c, cmd, wait) && wait > 2000 && !repeated then Again(cmd)
    else Nothing
  }

  lemma EffectOf(c: Core, now: Millis, cmd: Command, at: Millis, repeated: bool, owed: Command)
    requires Watches(c, cmd, at, repeated, owed)
    ensures var e, wait := c.CheckEffect(now), Elapsed(now, at);
      if cmd == NoCommand then e == c
      else if Expires(c, cmd, wait) then
        e.watch == c.watch.(awaited := NoCommand) && e.slot == c.slot && e.door == c.door.SetGoto(0)
        && e.caps == c.caps && e.stateWrites == c.stateWrites
      else if !Waits(c, cmd, wait) then e == c.(watch := c.watch.(awaited := NoCommand))
      else if wait > 2000 && !repeated then e == c.(watch := c.watch.(confirmRepeats := 1, repeat := cmd))
      else e == c
  {
    hide Elapsed;
  }

  lemma PollBrings(c: Core, now: Millis, cmd: Command, at: Millis, repeated: bool, owed: Command)
    requires Watches(c, cmd, at, repeated, owed) && !c.Choose(now).Fresh?
    ensures c.Choose(now) == Brings(c, cmd, repeated, owed, Elapsed(now, at))
  {
    EffectOf(c, now, cmd, at, repeated, owed);
    hide Core.CheckEffect, Elapsed;
  }

  lemma PollKeepsWatch(c: Core, now: Millis, cmd: Command, at: Millis, repeated: bool, owed: Command)
    requires Watches(c, cmd, at, repeated, owed) && !c.Choose(now).Fresh?
    ensures if Waits(c, cmd, Elapsed(now, at)) && !c.slot.cancelWatch
            then Watches(c.Poll(now), cmd, at, repeated || c.Choose(now).Again?, NoCommand)
            else Watches(c.Poll(now), NoCommand, 0, false, NoCommand)
  {
    EffectOf(c, now, cmd, at, repeated, owed);
    PollBrings(c, now, cmd, at, repeated, owed);
    hide Core.CheckEffect, Elapsed;
  }

  lemma PollKeepsTarget(c: Core, now: Millis, cmd: Command, at: Millis, repeated: bool, owed: Command)
    requires Watches(c, cmd, at, repeated, owed) && !c.Choose(now).Fresh?
    ensures c.Poll(now).door.goto == (if Expires(c, cmd, Elapsed(now, at)) then 0 else c.door.goto)
  {
    EffectOf(c, now, cmd, at, repeated, owed);
    RestOfReady(c.CheckEffect(now), now);
    hide Core.CheckEffect, Elapsed, Core.TakeStop, Core.HonourCancel, Core.Expire, Core.RepeatStillMakesSense;
  }

  lemma TakeWatches(c: Core, now: Millis)
    requires c.Choose(now).Fresh? && c.caps == HCP2_CAPABILITIES
    ensures var d := c.Poll(now);
      && Watches(d, c.Choose(now).cmd, now, false, NoCommand) && c.Choose(now).cmd != NoCommand
      && d.watch.stateWritesWhenSent == d.stateWrites
  {
    hide Core.CheckEffect, Elapsed, Core.RepeatStillMakesSense;
    EffectSlot(c, now);
    EffectTouches(c, now);
  }

  lemma FreshWatches(c: Core, now: Millis, input: Input)
    requires Possible(input) && Sent(c, now, input).Fresh? && c.caps == HCP2_CAPABILITIES
    ensures var d := Next(c, now, input);
      && Watches(d, Sent(c, now, input).cmd, now, false, NoCommand) && Sent(c, now, input).cmd != NoCommand
      && d.watch.stateWritesWhenSent == d.stateWrites
  {
    ReceivedTouches(c, input);
    TakeWatches(Received(c, input), now);
    ExchangeParts(c, now, input);
    hide Next, Received, Core.Poll, Core.Choose;
  }

  /** A loss that may be made good, as the state shows it. */
  predicate LostFreely(c: Core, input: Input) {
    Lost(c, input) && c.watch.repeatsSent < 3
  }

  lemma ReceiveWatches(c: Core, input: Input, cmd: Command, at: Millis, repeated: bool, owed: Command)
    requires input.Exchange? && Watches(c, cmd, at, repeated, owed)
    ensures var s := Received(c, input);
      if LostFreely(c, input) then Watches(s, NoCommand, 0, false, c.watch.lastSent)
      else Watches(s, cmd, at, repeated, owed)
  {
    ReceivesLoss(c, input);
    ReceivedTouches(c, input);
    hide Received, Lost;
  }

  /** The command, and what is owed, that a poll is left with once the exchange has been looked at for a loss. */
  function CmdOn(c: Core, input: Input, cmd: Command): Command {
    if LostFreely(c, input) then NoCommand else cmd
  }

  function OwedOn(c: Core, input: Input, owed: Command): Command {
    if LostFreely(c, input) then c.watch.lastSent else owed
  }

  lemma StepBrings(c: Core, now: Millis, input: Input, cmd: Command, at: Millis, repeated: bool, owed: Command)
    requires Possible(input) && Watches(c, cmd, at, repeated, owed)
    requires input.Exchange? && input.poll && !c.pause.requested && !Sent(c, now, input).Fresh?
    ensures var sent, d, wait := Sent(c, now, input), Next(c, now, input), Elapsed(now, at);
      var live, due := CmdOn(c, input, cmd), OwedOn(c, input, owed);
      && sent == Brings(c, live, repeated, due, wait)
      && (if Waits(c, live, wait) && !c.slot.cancelWatch
          then Watches(d, live, at, repeated || sent.Again?, NoCommand)
          else Watches(d, NoCommand, 0, false, NoCommand))
      && d.door.goto == (if Expires(c, live, wait) then 0 else c.door.goto)
  {
    hide Next, Elapsed, Leads;
    var s := Received(c, input);
    ReceiveWatches(c, input, cmd, at, repeated, owed);
    ReceivedTouches(c, input);
    ExchangeParts(c, now, input);
    ExchangeGoto(c, now, input);
    var free := LostFreely(c, input);
    var live, due := CmdOn(c, input, cmd), OwedOn(c, input, owed);
    assert Watches(s, live, at, repeated, due);
    PollBrings(s, now, live, at, repeated, due);
    PollKeepsWatch(s, now, live, at, repeated, due);
    PollKeepsTarget(s, now, live, at, repeated, due);
    hide Received, Core.Poll, Core.Choose, Lost, LostFreely;
  }

  lemma StepKeeps(c: Core, now: Millis, input: Input, cmd: Command, at: Millis, repeated: bool, owed: Command)
    requires Possible(input) && Watches(c, cmd, at, repeated, owed)
    requires !(input.Exchange? && input.poll && !c.pause.requested)
    ensures var d := Next(c, now, input);
      if input.Exchange? && input.poll then Watches(d, NoCommand, 0, false, NoCommand)
      else if LostFreely(c, input) then Watches(d, NoCommand, 0, false, c.watch.lastSent)
      else Watches(d, cmd, at, repeated, owed)
  {
    hide Next, Leads;
    if input.Exchange? {
      ReceiveWatches(c, input, cmd, at, repeated, owed);
      ReceivedTouches(c, input);
      ExchangeParts(c, now, input);
      hide Received, Lost;
    } else {
      StepTouches(c, now, input);
    }
  }

  lemma ExchangeGoto(c: Core, now: Millis, input: Input)
    requires input.Exchange? && input.poll && Possible(input) && !c.pause.requested
    ensures Next(c, now, input).door.goto == Received(c, input).Poll(now).door.goto
  {
    hide Received, Core.Poll;
    ReceivedTouches(c, input);
  }

  // ----- the two are one -----

  lemma StepAt(r: Run, m: nat)
    requires IsRun(r) && m < |r.inputs|
    ensures |r.states| == |r.inputs| + 1 == |r.times| + 1 && Possible(r.inputs[m])
    ensures Quiet(r.states[m + 1]) == Quiet(Next(r.states[m], Shown(r.times[m]), r.inputs[m]))
  {
    assert IsStep(r, m);
    hide Quiet, Next;
  }

  lemma NextAt(r: Run, k: nat)
    requires IsRun(r) && k < |r.inputs|
    ensures |r.states| == |r.inputs| + 1 == |r.times| + 1
    ensures Possible(r.inputs[k])
    ensures r.states[k + 1].door.goto == Next(r.states[k], Shown(r.times[k]), r.inputs[k]).door.goto
  {
    assert IsStep(r, k);
    hide Next;
  }

  lemma FreshNext(r: Run, k: nat)
    requires IsRun(r) && k < |r.inputs|
    ensures |r.states| == |r.inputs| + 1
    ensures LastFresh(r, k + 1) == (if SentAt(r, k).Fresh? then k else LastFresh(r, k))
  {
    hide IsStep, Sent;
  }

  lemma WatchesStays(c: Core, d: Core, cmd: Command, at: Millis, repeated: bool, owed: Command)
    requires Quiet(c) == Quiet(d)
    ensures Watches(c, cmd, at, repeated, owed) <==> Watches(d, cmd, at, repeated, owed)
    ensures c.door.goto == d.door.goto
  {
  }

  ghost predicate Plain(r: Run) {
    IsRun(r) && r.states[0].caps == HCP2_CAPABILITIES
  }

  /** What the state shows of the history before step `k`. */
  lemma HistoryIs(r: Run, k: nat)
    requires Plain(r) && k < |r.inputs|
    ensures |r.states| == |r.inputs| + 1 == |r.times| + 1 && Possible(r.inputs[k])
    ensures var c, input := r.states[k], r.inputs[k];
      && (c.pause.requested <==> InPause(r, k)) && c.slot.next == Waiting(r, k)
      && (c.slot.cancelWatch <==> Cancelled(r, k)) && c.watch.lastSent == Told(r, k)
      && (LostFreely(c, input) <==> Resends(r, k)) && c.caps == HCP2_CAPABILITIES
  {
    hide IsRun, Lost, Told, Waiting, Cancelled, InPause, Losses;
    StepAt(r, k);
    InPauseIs(r, k);
    QueueIs(r, k);
    CancelIs(r, k);
    AnswerIs(r, k);
    MissesIff(r, k);
    LossesAre(r, k);
    CapsStay(r, k);
  }

  lemma PendingIs(r: Run, w: nat, k: nat)
    requires Plain(r) && w < k < |r.inputs| && w == LastFresh(r, k)
    ensures |r.states| == |r.inputs| + 1 == |r.times| + 1 && SentAt(r, w).Fresh?
    ensures var c, cmd, wait := r.states[k], SentAt(r, w).cmd, Elapsed(Shown(r.times[k]), Shown(r.times[w]));
      && wait == Wait(r, w, k)
      && (c.stateWrites == c.watch.stateWritesWhenSent <==> forall m :: w <= m < k ==> !Changes(r, m))
      && (Waits(c, cmd, wait) <==> cmd != NoCommand && Pending(r, w, k))
      && (Expires(c, cmd, wait) <==> cmd != NoCommand && !Acts(r, w, k) && Waiting(r, k) == NoCommand && wait > 5000)
  {
    hide IsRun, Leads, Waiting, Changes, SentAt, Elapsed;
    RunShape(r);
    StampHolds(r, k);
    WritesIff(r, w, k);
    QueueIs(r, k);
    WaitIsReal(r, k, w);
  }

  ghost predicate Tracks(r: Run, k: nat)
    requires IsRun(r) && k < |r.states| == |r.inputs| + 1 == |r.times| + 1
  {
    var w := Watched(r, k);
    if w < 0 then Watches(r.states[k], NoCommand, 0, false, Owed(r, k))
    else SentAt(r, w).Fresh? && SentAt(r, w).cmd != NoCommand && w == LastFresh(r, k)
         && Watches(r.states[k], SentAt(r, w).cmd, Shown(r.times[w]), Repeated(r, w, k), Owed(r, k))
  }

  lemma TracksNext(r: Run, k: nat)
    requires Plain(r) && k < |r.inputs| && |r.states| == |r.inputs| + 1 == |r.times| + 1 && Tracks(r, k)
    ensures Tracks(r, k + 1)
  {
    if SentAt(r, k).Fresh? {
      TracksFresh(r, k);
    } else if Polls(r, k) {
      TracksPoll(r, k);
    } else {
      TracksOther(r, k);
    }
  }

  lemma TracksFresh(r: Run, k: nat)
    requires Plain(r) && k < |r.inputs| && |r.states| == |r.inputs| + 1 == |r.times| + 1 && SentAt(r, k).Fresh?
    ensures Tracks(r, k + 1)
  {
    hide Watches, Next, IsRun;
    HistoryIs(r, k);
    StepAt(r, k);
    FreshNext(r, k);
    var c, now, input := r.states[k], Shown(r.times[k]), r.inputs[k];
    FreshWatches(c, now, input);
    WatchesStays(Next(c, now, input), r.states[k + 1], SentAt(r, k).cmd, now, false, NoCommand);
  }

  lemma TracksOther(r: Run, k: nat)
    requires Plain(r) && k < |r.inputs| && |r.states| == |r.inputs| + 1 == |r.times| + 1 && Tracks(r, k)
    requires !SentAt(r, k).Fresh? && !Polls(r, k)
    ensures Tracks(r, k + 1)
  {
    hide Watches, Next, IsRun, Resends, LostFreely, Pending, Told, SentAt, Repeated;
    HistoryIs(r, k);
    StepAt(r, k);
    FreshNext(r, k);
    NotPolled(r, k);
    var c, now, input, w := r.states[k], Shown(r.times[k]), r.inputs[k], Watched(r, k);
    var cmd, at, repeated := CmdOf(r, w), AtOf(r, w), w >= 0 && Repeated(r, w, k);
    StepKeeps(c, now, input, cmd, at, repeated, Owed(r, k));
    WatchesStays(Next(c, now, input), r.states[k + 1], cmd, at, repeated, Owed(r, k));
    WatchesStays(Next(c, now, input), r.states[k + 1], NoCommand, 0, false, NoCommand);
    WatchesStays(Next(c, now, input), r.states[k + 1], NoCommand, 0, false, Told(r, k));
    if w >= 0 {
      RepeatedNext(r, w, k);
    }
  }

  ghost function CmdOf(r: Run, w: int): Command
    requires IsRun(r) && w < |r.inputs|
  {
    if w < 0 then NoCommand else CommandOf(SentAt(r, w))
  }

  ghost function AtOf(r: Run, w: int): Millis
    requires w < |r.times|
  {
    if w < 0 then 0 else Shown(r.times[w])
  }

  lemma NotPolled(r: Run, k: nat)
    requires IsRun(r) && k < |r.inputs| && !Polls(r, k) && |r.states| == |r.inputs| + 1
    ensures SentAt(r, k) == Nothing
    ensures !(r.inputs[k].Exchange? && r.inputs[k].poll && !r.states[k].pause.requested)
  {
    InPauseIs(r, k);
    hide IsRun;
  }

  lemma RepeatedNext(r: Run, f: nat, k: nat)
    requires IsRun(r) && f < k < |r.inputs|
    ensures Repeated(r, f, k + 1) <==> Repeated(r, f, k) || SentAt(r, k).Again?
  {
    hide IsRun, SentAt;
  }

  /** The watch a poll decides from. */
  ghost function Live(r: Run, k: nat): int
    requires IsRun(r) && k < |r.inputs|
  {
    if Resends(r, k) then -1 else Watched(r, k)
  }

  ghost function Due(r: Run, k: nat): Command
    requires IsRun(r) && k < |r.inputs|
  {
    if Resends(r, k) then Told(r, k) else Owed(r, k)
  }

  /** What is owed has been brought about since it was taken. */
  ghost predicate DoneSince(r: Run, k: nat, cmd: Command)
    requires IsRun(r) && k < |r.states|
  {
    if cmd == Impulse then exists m: nat :: LastFresh(r, k) <= m < k && Changes(r, m) else Leads(cmd, r.states[k].door)
  }

  /** What a poll brings out again, where it takes nothing from the queue. */
  ghost function Brought(r: Run, k: nat): Choice
    requires IsRun(r) && k < |r.inputs| == |r.times| == |r.states| - 1
  {
    if Cancelled(r, k) then Nothing
    else if Due(r, k) != NoCommand then (if DoneSince(r, k, Due(r, k)) then Nothing else Again(Due(r, k)))
    else if Live(r, k) >= 0 && Pending(r, Live(r, k), k) && Wait(r, Live(r, k), k) > 2000 && !Repeated(r, Live(r, k), k)
    then Again(CommandOf(SentAt(r, Live(r, k))))
    else Nothing
  }

  /** The command is given up with this poll. */
  ghost predicate GivesUp(r: Run, k: nat)
    requires IsRun(r) && k < |r.inputs| == |r.times| == |r.states| - 1
  {
    && Live(r, k) >= 0 && !Acts(r, Live(r, k), k) && Waiting(r, k) == NoCommand && Wait(r, Live(r, k), k) > 5000
  }

  lemma DueIs(r: Run, k: nat)
    requires Plain(r) && k < |r.inputs| && |r.states| == |r.inputs| + 1 == |r.times| + 1
    requires r.states[k].watch.repeat == Owed(r, k) && Due(r, k) != NoCommand
    ensures LastFresh(r, k) >= 0
    ensures r.states[k].stateWrites == r.states[k].watch.stateWritesWhenSent
      <==> forall m: nat :: LastFresh(r, k) <= m < k ==> !Changes(r, m)
  {
    hide IsRun, Resends, Told, Changes, SentAt;
    BudgetHolds(r, k);
    AnswerIs(r, k);
    NothingTaken(r, k);
    StampHolds(r, k);
    WritesIff(r, LastFresh(r, k), k);
  }

  lemma LiveIs(r: Run, k: nat)
    requires Plain(r) && k < |r.inputs| && |r.states| == |r.inputs| + 1 == |r.times| + 1 && Tracks(r, k)
    ensures var c, w, wait := r.states[k], Live(r, k), Elapsed(Shown(r.times[k]), AtOf(r, Watched(r, k)));
      && (Waits(c, CmdOf(r, w), wait) <==> w >= 0 && Pending(r, w, k))
      && (Expires(c, CmdOf(r, w), wait) <==> GivesUp(r, k))
      && (w >= 0 ==> wait == Wait(r, w, k))
  {
    hide Watches, IsRun, Resends, Pending, SentAt, Waits, Expires, Elapsed, Acts;
    NothingPends(r.states[k], Elapsed(Shown(r.times[k]), AtOf(r, Watched(r, k))));
    if Live(r, k) >= 0 {
      PendingIs(r, Live(r, k), k);
    }
  }

  lemma NothingPends(c: Core, wait: nat)
    ensures !Waits(c, NoCommand, wait) && !Expires(c, NoCommand, wait)
  {
  }

  lemma BroughtIs(r: Run, k: nat)
    requires Plain(r) && k < |r.inputs| && |r.states| == |r.inputs| + 1 == |r.times| + 1 && Tracks(r, k)
    ensures var w := Watched(r, k);
      Brings(r.states[k], CmdOf(r, Live(r, k)), w >= 0 && Repeated(r, w, k), Due(r, k),
             Elapsed(Shown(r.times[k]), AtOf(r, w))) == Brought(r, k)
  {
    hide IsRun, Resends, Pending, SentAt, Waits, Elapsed, Acts, Cancelled, Told, Leads, Owed;
    LiveIs(r, k);
    HistoryIs(r, k);
    if Due(r, k) != NoCommand {
      DueIs(r, k);
    }
  }

  lemma LiveOn(r: Run, k: nat)
    requires Plain(r) && k < |r.inputs| && |r.states| == |r.inputs| + 1 == |r.times| + 1
    ensures CmdOn(r.states[k], r.inputs[k], CmdOf(r, Watched(r, k))) == CmdOf(r, Live(r, k))
    ensures OwedOn(r.states[k], r.inputs[k], Owed(r, k)) == Due(r, k)
  {
    hide IsRun, Resends, LostFreely, SentAt, Owed, Told, Watched;
    HistoryIs(r, k);
  }

  /** A poll that takes nothing from the queue, in terms of the history. */
  lemma PollStep(r: Run, k: nat)
    requires Plain(r) && k < |r.inputs| && |r.states| == |r.inputs| + 1 == |r.times| + 1 && Tracks(r, k)
    requires !SentAt(r, k).Fresh? && Polls(r, k)
    ensures var w, d := Live(r, k), r.states[k + 1];
      && SentAt(r, k) == Brought(r, k)
      && d.door.goto == (if GivesUp(r, k) then 0 else r.states[k].door.goto)
      && (if w >= 0 && Pending(r, w, k) && !Cancelled(r, k)
          then Watches(d, CmdOf(r, w), AtOf(r, w), Repeated(r, w, k) || SentAt(r, k).Again?, NoCommand)
          else Watches(d, NoCommand, 0, false, NoCommand))
  {
    hide *;
    PlainShape(r);
    HistoryIs(r, k);
    StepAt(r, k);
    NextAt(r, k);
    LiveIsWatched(r, k);
    LiveOn(r, k);
    LiveIs(r, k);
    BroughtIs(r, k);
    PolledAt(r, k);
    var c, now, input, w := r.states[k], Shown(r.times[k]), r.inputs[k], Watched(r, k);
    var repeated, live := w >= 0 && Repeated(r, w, k), Live(r, k);
    TracksMeans(r, k);
    StepBrings(c, now, input, CmdOf(r, w), AtOf(r, w), repeated, Owed(r, k));
    WatchesStays(Next(c, now, input), r.states[k + 1], CmdOf(r, live), AtOf(r, w), repeated || SentAt(r, k).Again?,
                 NoCommand);
    WatchesStays(Next(c, now, input), r.states[k + 1], NoCommand, 0, false, NoCommand);
  }

  lemma TracksMeans(r: Run, k: nat)
    requires IsRun(r) && k < |r.inputs| && |r.states| == |r.inputs| + 1 == |r.times| + 1 && Tracks(r, k)
    ensures var w := Watched(r, k);
      Watches(r.states[k], CmdOf(r, w), AtOf(r, w), w >= 0 && Repeated(r, w, k), Owed(r, k))
  {
    hide IsRun, SentAt, Watches;
  }

  lemma LiveIsWatched(r: Run, k: nat)
    requires IsRun(r) && k < |r.inputs|
    ensures Live(r, k) == Watched(r, k) || Live(r, k) == -1
    ensures Live(r, k) < |r.inputs|
  {
  }

  lemma PolledAt(r: Run, k: nat)
    requires IsRun(r) && k < |r.inputs| && Polls(r, k) && |r.states| == |r.inputs| + 1 == |r.times| + 1
    ensures r.inputs[k].Exchange? && r.inputs[k].poll && !r.states[k].pause.requested
    ensures SentAt(r, k) == Sent(r.states[k], Shown(r.times[k]), r.inputs[k])
  {
    hide IsRun, Sent;
    InPauseIs(r, k);
  }

  lemma TracksPoll(r: Run, k: nat)
    requires Plain(r) && k < |r.inputs| && |r.states| == |r.inputs| + 1 == |r.times| + 1 && Tracks(r, k)
    requires !SentAt(r, k).Fresh? && Polls(r, k)
    ensures Tracks(r, k + 1)
  {
    hide Watches, IsRun, Resends, Pending, SentAt, Repeated, Brought, GivesUp, Cancelled;
    PollStep(r, k);
    FreshNext(r, k);
    if Live(r, k) >= 0 {
      RepeatedNext(r, Live(r, k), k);
    }
  }

  lemma {:induction false} TracksAlways(r: Run, k: nat)
    requires Plain(r) && k < |r.states|
    ensures |r.states| == |r.inputs| + 1 == |r.times| + 1 && Tracks(r, k)
  {
    hide *;
    PlainShape(r);
    if k == 0 {
      TracksFirst(r);
    } else {
      TracksAlways(r, k - 1);
      TracksNext(r, k - 1);
    }
  }

  lemma PlainShape(r: Run)
    requires Plain(r)
    ensures IsRun(r) && |r.states| == |r.inputs| + 1 == |r.times| + 1 && r.states[0].caps == HCP2_CAPABILITIES
  {
    RunShape(r);
    hide IsStep;
  }

  lemma TracksFirst(r: Run)
    requires Plain(r) && |r.states| == |r.inputs| + 1 == |r.times| + 1
    ensures Tracks(r, 0)
  {
    hide IsStep;
  }

  /**
   * What every poll outside a pause carries, exactly: what waits if it is fresh and
   * means something; else, unless somebody has stopped, what was found lost and is
   * not done; else what went out more than two and at most five seconds ago, once,
   * where the door has not acted and no newer call came; else nothing.
   */
  lemma {:induction false} PollSends(r: Run, k: nat)
    requires Plain(r) && k < |r.inputs| && Polls(r, k)
    ensures |r.states| == |r.inputs| + 1 == |r.times| + 1
    ensures SentAt(r, k) == (if Goes(r, k) then Fresh(Meant(Waiting(r, k))) else Brought(r, k))
  {
    hide *;
    PlainShape(r);
    FreshIff(r, k);
    if !SentAt(r, k).Fresh? {
      TracksAlways(r, k);
      PollStep(r, k);
    }
  }

  lemma FreshIff(r: Run, k: nat)
    requires IsRun(r) && k < |r.inputs| && Polls(r, k) && |r.states| == |r.inputs| + 1 == |r.times| + 1
    ensures SentAt(r, k).Fresh? <==> Goes(r, k)
    ensures Goes(r, k) ==> SentAt(r, k) == Fresh(Meant(Waiting(r, k)))
  {
    hide IsRun, SentAt, Means, Waiting, Meant;
    GoesOutIff(r, k);
  }

  /**
   * A poll that takes nothing from the queue leaves the go-to target as it is, but for
   * the one that comes more than five seconds after a command the door has not acted
   * on, with no newer call waiting: that one gives up the command and the target.
   */
  lemma {:induction false} TargetGoesIff(r: Run, k: nat)
    requires Plain(r) && k < |r.inputs| && Polls(r, k) && !SentAt(r, k).Fresh?
    ensures |r.states| == |r.inputs| + 1 == |r.times| + 1
    ensures r.states[k + 1].door.goto == (if GivesUp(r, k) then 0 else r.states[k].door.goto)
  {
    hide *;
    PlainShape(r);
    TracksAlways(r, k);
    PollStep(r, k);
  }
}
