/** What is shown of the door, told from the registers the drive has reported, in every run. */
module ShownRuns {
  import opened HcpTypes
  import opened Lifecycle
  import opened Runs

  /** What is shown, and the three registers it is shown from. */
  datatype Face = Face(
    state: DoorState,
    current: nat,
    target: nat,
    light: bool,
    relay: bool,
    fault: bool,
    position: Word,
    word: Word,
    lamps: Word)

  function FaceOf(c: Core): Face {
    Face(c.door.state, c.door.current, c.door.target, c.door.lightOn, c.door.relayOn, c.door.actuatorError,
         c.bcast[1], c.bcast[2], c.bcast[6])
  }

  const BLANK := Face(DoorClosed, 0, 0, false, false, false, 0, 0, 0)

  /** What the high byte of the state word stands for; at rest the low byte tells a vented door. */
  function Named(word: Word): Option<DoorState> {
    var high, low := word / 256, word % 256;
    if high == 0x00 then Some(if low == 0x61 then Venting else Stopped)
    else if high == 0x01 then Some(Opening)
    else if high == 0x02 then Some(Closing)
    else if high == 0x05 then Some(MoveHalf)
    else if high == 0x09 then Some(MoveVenting)
    else if high == 0x0A then Some(Venting)
    else if high == 0x20 then Some(DoorOpen)
    else if high == 0x40 then Some(DoorClosed)
    else if high == 0x80 then Some(HalfOpen)
    else None
  }

  /** A position register: where the door is, and where it is going, each in one byte. */
  function SeesPosition(f: Face, val: Word): Face {
    f.(position := val, current := val % 256, target := val / 256)
  }

  /** A state word shows where its high byte is new and has a name. */
  function SeesWord(f: Face, val: Word): Face {
    f.(word := val, state := if val / 256 != f.word / 256 && Named(val).Some? then Named(val).value else f.state)
  }

  /**
   * A lamp register: the light is on at 0x10 and 0x14, a fault is either of two bits
   * of the high byte, and the relay follows the high byte at 0x02, and at 0x14 and
   * 0x04 in the low byte where that is new.
   */
  function SeesLamps(f: Face, val: Word): Face {
    var high, low := val / 256, val % 256;
    f.(lamps := val, light := low == 0x10 || low == 0x14, fault := high / 16 % 4 != 0,
       relay := if low != f.lamps % 256 then high == 0x02 || low == 0x14 || low == 0x04
                else if high != f.lamps / 256 then high == 0x02
                else f.relay)
  }

  /** A whole telegram, as many of its registers as there are. */
  function Sees(f: Face, words: seq<Word>): Face {
    var p := if |words| > 1 then SeesPosition(f, words[1]) else f;
    var s := if |words| > 2 then SeesWord(p, words[2]) else p;
    if |words| > 6 then SeesLamps(s, words[6]) else s
  }

  /** The face, from all telegrams before step `k`. */
  ghost function FaceAt(r: Run, k: nat): Face
    requires IsRun(r) && k < |r.states|
  {
    if k == 0 then BLANK
    else if r.inputs[k - 1].Report? then Sees(FaceAt(r, k - 1), r.inputs[k - 1].words)
    else FaceAt(r, k - 1)
  }

  /** What is shown follows from the registers as they stand. */
  predicate Settled(f: Face) {
    && f.current == f.position % 256 && f.target == f.position / 256
    && (f.light <==> f.lamps % 256 == 0x10 || f.lamps % 256 == 0x14)
    && (f.fault <==> f.lamps / 256 / 16 % 4 != 0)
  }

  lemma PositionSeen(c: Core, val: Word)
    requires Settled(FaceOf(c))
    ensures FaceOf(c.WriteBcast(1, val)) == SeesPosition(FaceOf(c), val)
  {
  }

  lemma WordSeen(c: Core, val: Word)
    ensures FaceOf(c.WriteBcast(2, val)) == SeesWord(FaceOf(c), val)
  {
  }

  lemma LampsSeen(c: Core, val: Word)
    requires Settled(FaceOf(c))
    ensures FaceOf(c.WriteBcast(6, val)) == SeesLamps(FaceOf(c), val)
  {
    FaultSeen(c, val);
    LightSeen(c.ReportFault(val), val);
    hide Core.ReportFault, Core.ReportLight;
  }

  lemma FaultSeen(c: Core, val: Word)
    requires c.door.actuatorError <==> c.bcast[6] / 256 / 16 % 4 != 0
    ensures var f, d := FaceOf(c), c.ReportFault(val);
      && d.bcast == c.bcast
      && FaceOf(d) == f.(fault := val / 256 / 16 % 4 != 0,
                         relay := if val / 256 != f.lamps / 256 then val / 256 == 0x02 else f.relay)
  {
    SameBits(val);
    SameBits(c.bcast[6]);
  }

  lemma LightSeen(c: Core, val: Word)
    requires c.door.lightOn <==> c.bcast[6] % 256 == 0x10 || c.bcast[6] % 256 == 0x14
    ensures var f, d, low := FaceOf(c), c.ReportLight(val), val % 256;
      && d.bcast == c.bcast
      && FaceOf(d) == f.(light := low == 0x10 || low == 0x14,
                         relay := if low != f.lamps % 256 then val / 256 == 0x02 || low == 0x14 || low == 0x04
                                  else f.relay)
  {
  }

  lemma SameBits(val: Word)
    ensures val / 0x1000 % 4 == val / 256 / 16 % 4
  {
    assert val / 0x1000 == val / 256 / 16;
  }

  lemma OtherSeen(c: Core, i: nat, val: Word)
    requires i < 9 && i != 1 && i != 2 && i != 6
    ensures FaceOf(c.WriteBcast(i, val)) == FaceOf(c)
  {
  }

  lemma SeesSettles(f: Face, val: Word)
    ensures Settled(f) ==> Settled(SeesPosition(f, val)) && Settled(SeesWord(f, val)) && Settled(SeesLamps(f, val))
  {
  }

  /** What the registers from the `i`th on still have to show. */
  function SeesFrom(f: Face, words: seq<Word>, i: nat): Face
    requires i <= |words| <= 9
    decreases |words| - i
  {
    if i == |words| then f
    else SeesFrom(if i == 1 then SeesPosition(f, words[1]) else if i == 2 then SeesWord(f, words[2])
                  else if i == 6 then SeesLamps(f, words[6]) else f, words, i + 1)
  }

  lemma {:induction false} WrittenIsSeen(c: Core, words: seq<Word>, i: nat)
    requires i <= |words| <= 9 && Settled(FaceOf(c))
    ensures FaceOf(c.WriteFrom(words, i)) == SeesFrom(FaceOf(c), words, i)
    ensures Settled(FaceOf(c.WriteFrom(words, i)))
    decreases |words| - i
  {
    hide Core.WriteBcast, FaceOf, Settled, SeesPosition, SeesWord, SeesLamps;
    if i < |words| {
      SeesSettles(FaceOf(c), words[i]);
      if i == 1 {
        PositionSeen(c, words[1]);
      } else if i == 2 {
        WordSeen(c, words[2]);
      } else if i == 6 {
        LampsSeen(c, words[6]);
      } else {
        OtherSeen(c, i, words[i]);
      }
      WrittenIsSeen(c.WriteBcast(i, words[i]), words, i + 1);
    }
  }

  lemma SeesAll(f: Face, words: seq<Word>)
    requires |words| <= 9
    ensures SeesFrom(f, words, 0) == Sees(f, words)
  {
    hide SeesPosition, SeesWord, SeesLamps;
    var n := |words|;
    Skips(f, words, 0);
    if n > 1 {
      var p := SeesPosition(f, words[1]);
      assert SeesFrom(f, words, 1) == SeesFrom(p, words, 2);
      if n > 2 {
        var s := SeesWord(p, words[2]);
        assert SeesFrom(p, words, 2) == SeesFrom(s, words, 3);
        Skips(s, words, 3);
      }
    }
  }

  /** The registers nothing is shown of. */
  lemma Skips(f: Face, words: seq<Word>, i: nat)
    requires |words| <= 9 && i <= |words| && (i == 0 || i == 3)
    ensures i == 0 ==> SeesFrom(f, words, 0) == (if |words| > 1 then SeesFrom(f, words, 1) else f)
    ensures i == 3 ==> SeesFrom(f, words, 3) == (if |words| > 6 then SeesLamps(f, words[6]) else f)
  {
    hide SeesPosition, SeesWord, SeesLamps;
    if i == 0 {
    } else {
      Tail(f, words, 3);
      if |words| > 6 {
        Tail(SeesLamps(f, words[6]), words, 7);
      }
    }
  }

  lemma {:induction false} Tail(f: Face, words: seq<Word>, i: nat)
    requires 3 <= i <= |words| <= 9
    ensures SeesFrom(f, words, i)
      == (if i <= 6 < |words| then SeesFrom(SeesLamps(f, words[6]), words, 7) else f)
    decreases |words| - i
  {
    hide SeesPosition, SeesWord, SeesLamps;
    if i < |words| && i != 6 {
      Tail(f, words, i + 1);
    }
  }

  // ----- nothing but a telegram changes what is shown -----

  lemma EffectFace(c: Core, now: Millis)
    ensures FaceOf(c.CheckEffect(now)) == FaceOf(c)
  {
    hide Elapsed, Core.TookEffect;
  }

  lemma PollFace(c: Core, now: Millis)
    ensures FaceOf(c.Poll(now)) == FaceOf(c)
  {
    EffectFace(c, now);
    RestFace(c.CheckEffect(now), now);
    hide Core.CheckEffect, Core.HonourCancel, Core.Expire, Core.TakeStop, Core.Choose, Core.RepeatStillMakesSense;
  }

  lemma RestFace(c: Core, now: Millis)
    ensures FaceOf(c.HonourCancel().Expire(now).TakeStop()) == FaceOf(c)
  {
    hide Elapsed;
  }

  lemma ReceivedFace(c: Core, input: Input)
    requires input.Exchange?
    ensures FaceOf(Received(c, input)) == FaceOf(c)
  {
  }

  lemma ExchangeFace(c: Core, now: Millis, input: Input)
    requires input.Exchange? && Possible(input)
    ensures FaceOf(Next(c, now, input)) == FaceOf(c)
  {
    hide Core.Poll, Received, FaceOf, Core.LinkUp, Core.AdvanceCounter, Core.PausedPoll;
    var s := Received(c, input);
    ReceivedFace(c, input);
    PollFace(s, now);
    LinkFace(s);
    LinkFace(s.Poll(now));
    AdvanceFace(s.LinkUp());
    AdvanceFace(s.Poll(now).LinkUp());
    PausedFace(s);
    AdvanceFace(s.PausedPoll());
  }

  lemma LinkFace(c: Core)
    ensures FaceOf(c.LinkUp()) == FaceOf(c)
  {
  }

  lemma PausedFace(c: Core)
    ensures FaceOf(c.PausedPoll()) == FaceOf(c)
  {
  }

  lemma AdvanceFace(c: Core)
    ensures FaceOf(c.AdvanceCounter()) == FaceOf(c)
  {
  }

  lemma CallFace(c: Core, now: Millis, input: Input)
    requires !input.Exchange? && !input.Report? && Possible(input)
    ensures FaceOf(Next(c, now, input)) == FaceOf(c)
  {
  }

  lemma GotoFace(c: Core, now: Millis)
    ensures FaceOf(c.CheckGotoTarget(now)) == FaceOf(c)
  {
  }

  lemma ReportFace(c: Core, now: Millis, words: seq<Word>)
    requires |words| <= 9 && Settled(FaceOf(c))
    ensures FaceOf(c.Report(now, words)) == Sees(FaceOf(c), words) && Settled(Sees(FaceOf(c), words))
  {
    hide Core.WriteFrom, Sees, Settled, FaceOf, Core.LinkUp, Core.CheckGotoTarget;
    LinkFace(c);
    WrittenIsSeen(c.LinkUp(), words, 0);
    SeesAll(FaceOf(c), words);
    GotoFace(c.LinkUp().WriteFrom(words, 0), now);
  }

  lemma StepFace(c: Core, now: Millis, input: Input)
    requires Possible(input) && Settled(FaceOf(c))
    ensures FaceOf(Next(c, now, input)) == (if input.Report? then Sees(FaceOf(c), input.words) else FaceOf(c))
    ensures Settled(FaceOf(Next(c, now, input)))
  {
    hide Next, FaceOf, Settled, Sees;
    if input.Report? {
      ReportFace(c, now, input.words);
      NextReports(c, now, input);
    } else if input.Exchange? {
      ExchangeFace(c, now, input);
    } else {
      CallFace(c, now, input);
    }
  }

  lemma NextReports(c: Core, now: Millis, input: Input)
    requires input.Report? && Possible(input)
    ensures Next(c, now, input) == c.Report(now, input.words)
  {
  }

  lemma FaceStays(c: Core, d: Core)
    requires Quiet(c) == Quiet(d)
    ensures FaceOf(c) == FaceOf(d)
  {
  }

  /** In every run what is shown of the door is what the telegrams so far say, and nothing else. */
  lemma {:induction false} ShownIsReported(r: Run, k: nat)
    requires IsRun(r) && k < |r.states|
    ensures FaceOf(r.states[k]) == FaceAt(r, k) && Settled(FaceAt(r, k))
  {
    hide Next, Sees, Quiet;
    if k > 0 {
      ShownIsReported(r, k - 1);
      assert IsStep(r, k - 1);
      StepFace(r.states[k - 1], Shown(r.times[k - 1]), r.inputs[k - 1]);
      FaceStays(r.states[k], Next(r.states[k - 1], Shown(r.times[k - 1]), r.inputs[k - 1]));
      hide FaceOf, Settled;
    } else {
      FirstFace(r.states[0]);
    }
  }

  lemma FirstFace(c: Core)
    requires Quiet(c) == Quiet(NEW_CORE.(caps := c.caps))
    ensures FaceOf(c) == BLANK && Settled(BLANK)
  {
  }

  // ----- where that is not what the drive last said -----

  /** So far every telegram that gave a state word gave one that has a name, with nothing in its low byte. */
  ghost predicate PlainSoFar(r: Run, k: nat)
    requires IsRun(r) && k < |r.states|
  {
    forall m :: 0 <= m < k && r.inputs[m].Report? && |r.inputs[m].words| > 2 ==>
      r.inputs[m].words[2] % 256 == 0 && Named(r.inputs[m].words[2]).Some?
  }

  /** Some telegram said that the door is other than stopped partway. */
  ghost predicate SaidMore(r: Run, k: nat)
    requires IsRun(r) && k < |r.states|
  {
    exists m :: 0 <= m < k && r.inputs[m].Report? && |r.inputs[m].words| > 2 && r.inputs[m].words[2] != 0
  }

  lemma SaidNext(r: Run, k: nat)
    requires IsRun(r) && 0 < k < |r.states|
    ensures SaidMore(r, k) <==>
      (SaidMore(r, k - 1) || (r.inputs[k - 1].Report? && |r.inputs[k - 1].words| > 2 && r.inputs[k - 1].words[2] != 0))
    ensures PlainSoFar(r, k) ==> PlainSoFar(r, k - 1)
  {
    RunShape(r);
    hide IsRun, Named;
  }

  lemma SeesState(f: Face, words: seq<Word>)
    ensures var g := Sees(f, words);
      if |words| > 2 then g.word == words[2] && g.state == SeesWord(f, words[2]).state
      else g.word == f.word && g.state == f.state
  {
  }

  /**
   * The state shown is the one the drive said last if and only if it has ever said
   * anything but that the door stands partway: a door that has stood partway since
   * the codec started is shown as closed.
   */
  lemma {:induction false} ShownIsSaidIff(r: Run, k: nat)
    requires IsRun(r) && k < |r.states| && PlainSoFar(r, k)
    ensures Named(FaceAt(r, k).word).Some? && FaceAt(r, k).word % 256 == 0
    ensures r.states[k].door.state == Named(FaceAt(r, k).word).value <==> SaidMore(r, k)
    ensures !SaidMore(r, k) ==> r.states[k].door.state == DoorClosed && FaceAt(r, k).word == 0
  {
    hide Sees, IsRun;
    ShownIsReported(r, k);
    RunShape(r);
    if k > 0 {
      SaidNext(r, k);
      ShownIsSaidIff(r, k - 1);
      ShownIsReported(r, k - 1);
      if r.inputs[k - 1].Report? {
        SeesState(FaceAt(r, k - 1), r.inputs[k - 1].words);
      }
    }
    hide Settled;
  }
}
