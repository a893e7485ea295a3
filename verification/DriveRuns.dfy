/**
 * The command lifecycle played against a drive: it holds its counter until it is
 * answered, counts 1 to 0x7F and round again, and any request or answer may be
 * lost on the way.
 */
module DriveRuns {
  import opened HcpTypes
  import opened Lifecycle
  import opened Runs

  type Count = c: Byte | 1 <= c <= 0x7F witness 1

  function Succ(c: Count): Count {
    if c == 0x7F then 1 else c + 1
  }

  datatype Fate = RequestLost | AnswerLost | Delivered

  datatype Move =
    // a status poll; the answer that was delivered may ask the drive for its identity
    | Poll(fate: Fate, asks: bool)
    // a payload the drive sends while it serves such a request
    | Transfer(half: bool, reached: bool)
    | Served
    | Other

  /** `missed`: the accessory has answered the count the drive still holds. */
  datatype Drive = Drive(counter: Count, serving: bool, missed: bool)

  /** What the drive's move does to it, and what of it reaches the accessory. */
  predicate Plays(d: Drive, move: Move, input: Input, sent: Choice, e: Drive) {
    match move
    case Poll(fate, asks) =>
      && !d.serving
      && input == (if fate == RequestLost then Noise else Exchange(d.counter, CMD_STATUS, true))
      && (asks ==> fate == Delivered && sent == Nothing)
      && e == (match fate
               case RequestLost => d
               case AnswerLost => d.(missed := true)
               case Delivered => Drive(if asks then d.counter else Succ(d.counter), asks, false))
    case Transfer(half, reached) =>
      && d.serving
      && input == (if reached
                   then Exchange(Succ(d.counter) + (if half then 0x80 else 0), CMD_TRANSFER, false)
                   else Noise)
      && e == d.(counter := Succ(d.counter))
    case Served =>
      && d.serving && input == Noise
      && e == d.(counter := Succ(d.counter), serving := false)
    case Other =>
      !input.Exchange? && e == d
  }

  datatype Play = Play(run: Run, moves: seq<Move>, drives: seq<Drive>)

  ghost predicate IsPlay(p: Play) {
    && IsRun(p.run)
    && |p.moves| == |p.run.inputs| && |p.drives| == |p.moves| + 1
    && p.drives[0] == Drive(1, false, false)
    && forall k :: 0 <= k < |p.moves| ==>
         Plays(p.drives[k], p.moves[k], p.run.inputs[k], SentAt(p.run, k), p.drives[k + 1])
  }

  /** How often the drive has been told the command taken last, before step `k`. */
  ghost function Told(p: Play, k: nat): nat
    requires IsPlay(p) && k < |p.drives|
  {
    if k == 0 then 0
    else ToldNow(SentAt(p.run, k - 1), p.moves[k - 1], Told(p, k - 1))
  }

  function ToldNow(sent: Choice, move: Move, before: nat): nat {
    var got := if move.Poll? && move.fate == Delivered then 1 else 0;
    match sent
    case Fresh(_) => got
    case Again(_) => before + got
    case Nothing => before
  }

  // ----- the invariant -----

  /** The receipt and the drive's count agree on whether the last command got through. */
  predicate Agreed(c: Core, d: Drive) {
    c.watch.lastSent != NoCommand ==>
      && c.receipt.valid && 1 <= c.receipt.txCounterPrev <= 0x7F
      && c.receipt.txCounter == Succ(c.receipt.txCounterPrev)
      && !d.serving
      && d.counter == (if d.missed then c.receipt.txCounterPrev else c.receipt.txCounter)
  }

  /** Every receipt of the command beyond the first, one still to come included, was allowed for. */
  predicate Owed(c: Core, d: Drive, told: nat) {
    && c.watch.repeat == NoCommand
    && told + (if d.missed && c.watch.lastSent != NoCommand then 1 else 0) <= 1 + c.watch.confirmRepeats
    && c.watch.confirmRepeats <= c.caps.unactedRepeats
  }

  /** A re-send of what the last answer carried is armed by this input. */
  predicate Rearms(c: Core, input: Input) {
    input.Exchange? && Received(c, input).watch.repeatsSent > c.watch.repeatsSent
  }

  lemma RearmsOnlyMissed(c: Core, d: Drive)
    requires Agreed(c, d) && Rearms(c, Exchange(d.counter, CMD_STATUS, true))
    ensures d.missed && c.watch.lastSent != NoCommand
  {
  }

  lemma PollReceives(c: Core, d: Drive, told: nat)
    requires Agreed(c, d) && Owed(c, d, told)
    ensures var s := Received(c, Exchange(d.counter, CMD_STATUS, true));
      && told + (if s.watch.repeat != NoCommand then 1 else 0) <= 1 + s.watch.confirmRepeats
      && s.watch.confirmRepeats <= s.caps.unactedRepeats
      && (s.watch.repeat != NoCommand ==> s.watch.awaited == NoCommand)
  {
  }

  lemma EffectOwes(c: Core, now: Millis, told: nat)
    requires told + (if c.watch.repeat != NoCommand then 1 else 0) <= 1 + c.watch.confirmRepeats
    requires c.watch.confirmRepeats <= c.caps.unactedRepeats
    requires c.watch.repeat != NoCommand ==> c.watch.awaited == NoCommand
    ensures var s := c.CheckEffect(now);
      && told + (if s.watch.repeat != NoCommand then 1 else 0) <= 1 + s.watch.confirmRepeats
      && s.watch.confirmRepeats <= s.caps.unactedRepeats
  {
    hide Elapsed, Core.TookEffect;
  }

  lemma PollOwes(c: Core, now: Millis, told: nat)
    requires told + (if c.watch.repeat != NoCommand then 1 else 0) <= 1 + c.watch.confirmRepeats
    requires c.watch.confirmRepeats <= c.caps.unactedRepeats
    requires c.watch.repeat != NoCommand ==> c.watch.awaited == NoCommand
    ensures var s, sent := c.Poll(now), c.Choose(now);
      && s.watch.repeat == NoCommand && s.watch.confirmRepeats <= s.caps.unactedRepeats
      && (match sent
          case Fresh(_) => true
          case Again(_) => told <= s.watch.confirmRepeats
          case Nothing => told <= 1 + s.watch.confirmRepeats && s.watch.lastSent == NoCommand)
  {
    EffectOwes(c, now, told);
    RestOfReady(c.CheckEffect(now), now);
    ReadyRepeat(c, now);
    hide Core.CheckEffect, Core.HonourCancel, Core.Expire, Core.TakeStop, Core.Reached;
  }

  lemma AnsweredCounts(c: Core, now: Millis, input: Input)
    requires input.Exchange? && Possible(input) && 1 <= input.counterByte <= 0x7F
    ensures var r := Next(c, now, input).receipt;
      r == Receipt(Succ(input.counterByte), input.counterByte, true)
  {
    hide Received, Next, Core.Poll, PollOnly;
    SyncAdopts(c, input);
    ExchangeParts(c, now, input);
    var s := Received(c, input);
    assert s.Poll(now).receipt == s.receipt by {
      PollKeepsReceipt(s, now);
    }
    AdvanceCounts(s.receipt, input.counterByte);
  }

  lemma PollKeepsReceipt(c: Core, now: Millis)
    ensures c.Poll(now).receipt == c.receipt
  {
    hide Core.Poll;
    PollTouches(c, now);
  }

  lemma AdvanceCounts(r: Receipt, count: Count)
    requires r.txCounter == count && r.valid
    ensures r.Advance() == Receipt(Succ(count), count, true)
  {
  }

  lemma SyncAdopts(c: Core, input: Input)
    requires input.Exchange?
    ensures input.counterByte <= 0x7F ==> Received(c, input).receipt.txCounter == input.counterByte
    ensures Received(c, input).receipt.valid
  {
  }

  lemma AnsweredPoll(c: Core, now: Millis, d: Drive, fate: Fate, asks: bool, e: Drive, told: nat)
    requires Agreed(c, d) && Owed(c, d, told) && fate != RequestLost
    requires var input := Exchange(d.counter, CMD_STATUS, true);
      Plays(d, Poll(fate, asks), input, Sent(c, now, input), e)
    ensures var input := Exchange(d.counter, CMD_STATUS, true);
      var s := Next(c, now, input);
      Agreed(s, e) && Owed(s, e, ToldNow(Sent(c, now, input), Poll(fate, asks), told))
  {
    var input := Exchange(d.counter, CMD_STATUS, true);
    PollReceives(c, d, told);
    ReceivedTouches(c, input);
    AnsweredCounts(c, now, input);
    ExchangeParts(c, now, input);
    PollOwes(Received(c, input), now, told);
    hide Received, Next, Core.Poll, Core.Choose;
  }

  lemma AnsweredTransfer(c: Core, now: Millis, input: Input, d: Drive, e: Drive, told: nat)
    requires Agreed(c, d) && Owed(c, d, told)
    requires input.Exchange? && !input.poll && input.command == CMD_TRANSFER && d.serving
    ensures var s := Next(c, now, input);
      Agreed(s, e) && Owed(s, e, told)
  {
    ReceivedTouches(c, input);
    ExchangeParts(c, now, input);
    assert Received(c, input).watch == c.watch.(lastSent := NoCommand);
    hide Received, Next;
  }

  lemma PlayStep(c: Core, now: Millis, input: Input, d: Drive, move: Move, e: Drive, told: nat)
    requires Possible(input) && Agreed(c, d) && Owed(c, d, told)
    requires Plays(d, move, input, Sent(c, now, input), e)
    ensures var s := Next(c, now, input);
      Agreed(s, e) && Owed(s, e, ToldNow(Sent(c, now, input), move, told))
  {
    hide Next;
    if input.Exchange? {
      hide Sent, Agreed, Owed;
      if move.Poll? {
        AnsweredPoll(c, now, d, move.fate, move.asks, e, told);
      } else {
        assert Sent(c, now, input) == Nothing by {
          TransfersCarryNothing(c, now, input);
        }
        AnsweredTransfer(c, now, input, d, e, told);
      }
    } else {
      StepTouches(c, now, input);
    }
  }

  lemma TransfersCarryNothing(c: Core, now: Millis, input: Input)
    requires input.Exchange? && !input.poll
    ensures Sent(c, now, input) == Nothing
  {
  }

  lemma {:induction false} PlayHolds(p: Play, k: nat)
    requires IsPlay(p) && k < |p.drives|
    ensures Agreed(p.run.states[k], p.drives[k]) && Owed(p.run.states[k], p.drives[k], Told(p, k))
  {
    hide Next, Sent, Plays;
    if k > 0 {
      PlayHolds(p, k - 1);
      assert IsStep(p.run, k - 1);
      PlayStep(p.run.states[k - 1], Shown(p.run.times[k - 1]), p.run.inputs[k - 1],
               p.drives[k - 1], p.moves[k - 1], p.drives[k], Told(p, k - 1));
    }
  }

  /** The last poll before step `k` that the accessory answered, or -1. */
  ghost function LastAnswered(p: Play, k: nat): (j: int)
    requires IsPlay(p) && k < |p.drives|
    ensures -1 <= j < k
  {
    if k == 0 then -1
    else if p.moves[k - 1].Poll? && p.moves[k - 1].fate != RequestLost then k - 1
    else LastAnswered(p, k - 1)
  }

  lemma AnsweredNotes(c: Core, now: Millis, input: Input)
    requires input.Exchange? && input.poll && Possible(input)
    ensures Next(c, now, input).watch.lastSent == CommandOf(Sent(c, now, input))
  {
    ReceivedTouches(c, input);
    ExchangeParts(c, now, input);
    PollNotesChoice(Received(c, input), now);
    hide Received, Next, Core.Poll, Core.Choose;
  }

  /** While the drive still holds an answered count, the last answer is the one that was lost. */
  lemma {:induction false} MissedWasLost(p: Play, k: nat)
    requires IsPlay(p) && k < |p.drives| && p.drives[k].missed
    ensures var j := LastAnswered(p, k);
      && j >= 0 && p.moves[j] == Poll(AnswerLost, false)
      && p.drives[j].counter == p.drives[k].counter && !p.drives[k].serving
      && p.run.states[k].watch.lastSent == CommandOf(SentAt(p.run, j))
  {
    if k > 0 {
      var c, now, input := p.run.states[k - 1], Shown(p.run.times[k - 1]), p.run.inputs[k - 1];
      assert IsStep(p.run, k - 1);
      assert Plays(p.drives[k - 1], p.moves[k - 1], input, SentAt(p.run, k - 1), p.drives[k]);
      hide Next, Sent;
      if LastAnswered(p, k) == k - 1 {
        AnsweredNotes(c, now, input);
      } else {
        MissedWasLost(p, k - 1);
        StepTouches(c, now, input);
      }
    }
  }

  /**
   * A re-send is armed only where the last answer really was lost, and what is
   * re-sent is what that answer carried.
   */
  lemma {:induction false} ResendsOnlyWhatWasLost(p: Play, k: nat)
    requires IsPlay(p) && k < |p.moves| && Rearms(p.run.states[k], p.run.inputs[k])
    ensures var j := LastAnswered(p, k);
      && j >= 0 && p.moves[j] == Poll(AnswerLost, false)
      && Received(p.run.states[k], p.run.inputs[k]).watch.repeat == CommandOf(SentAt(p.run, j)) != NoCommand
  {
    PlayHolds(p, k);
    assert Plays(p.drives[k], p.moves[k], p.run.inputs[k], SentAt(p.run, k), p.drives[k + 1]);
    RearmsLastSent(p.run.states[k], p.run.inputs[k]);
    hide SentAt, Rearms, Received;
    if p.moves[k].Poll? {
      RearmsOnlyMissed(p.run.states[k], p.drives[k]);
      MissedWasLost(p, k);
    }
  }

  lemma RearmsLastSent(c: Core, input: Input)
    requires Rearms(c, input)
    ensures Received(c, input).watch.repeat == c.watch.lastSent != NoCommand && input.command == CMD_STATUS
  {
  }

  /**
   * Whatever is lost, the drive receives one taken command at most once, and once
   * more for each repeat the bus allows when a door did not act.
   */
  lemma {:induction false} ToldIsBounded(p: Play, k: nat)
    requires IsPlay(p) && k < |p.drives|
    ensures Told(p, k) <= 1 + p.run.states[0].caps.unactedRepeats
  {
    PlayHolds(p, k);
    CapsStay(p.run, k);
  }
}
