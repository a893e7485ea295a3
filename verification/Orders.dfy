/**
 * What a drive is told to do over a whole session, one order after the other,
 * and the calls from the loop that each of them goes back to.
 */
module Orders {
  import opened HcpTypes
  import opened Lifecycle
  import opened Replies
  import opened Runs
  import opened StopRuns
  import opened DriveRuns
  import opened Traffic
  import Logged
  import opened Session

  // ----- receipts in a play -----

  /** At step `k` an answer that carries a command reaches the drive. */
  ghost predicate Arrives(p: Play, k: nat)
    requires IsPlay(p) && k < |p.moves|
  {
    p.moves[k].Poll? && p.moves[k].fate == Delivered && !SentAt(p.run, k).Nothing?
  }

  /** For every receipt before step `k`, the step that took its command out of the slot. */
  ghost function Takes(p: Play, k: nat): seq<nat>
    requires IsPlay(p) && k < |p.drives|
  {
    if k == 0 then []
    else Takes(p, k - 1) + TakeAt(p, k - 1)
  }

  ghost function TakeAt(p: Play, k: nat): seq<nat>
    requires IsPlay(p) && k < |p.moves|
  {
    if Arrives(p, k) then [Origin(p.run, k)] else []
  }

  lemma PlayShape(p: Play)
    requires IsPlay(p)
    ensures IsRun(p.run) && |p.drives| == |p.moves| + 1 == |p.run.inputs| + 1 == |p.run.states|
  {
    hide IsStep, Plays;
  }

  lemma TakesGrow(p: Play, k: nat)
    requires IsPlay(p) && k < |p.moves|
    ensures Takes(p, k + 1) == Takes(p, k) + TakeAt(p, k)
  {
    hide TakeAt;
  }

  /** These are steps before step `k` that took a command out of the slot. */
  ghost predicate AllFresh(r: Run, q: seq<nat>, k: nat)
    requires IsRun(r) && k <= |r.inputs|
  {
    forall i :: 0 <= i < |q| ==> q[i] < k && SentAt(r, q[i]).Fresh?
  }

  lemma TakeIsFresh(p: Play, k: nat)
    requires IsPlay(p) && k < |p.moves|
    ensures AllFresh(p.run, TakeAt(p, k), k + 1)
  {
    hide SentAt, IsRun;
  }

  lemma MoreAreFresh(r: Run, q: seq<nat>, q': seq<nat>, k: nat)
    requires IsRun(r) && k < |r.inputs| && AllFresh(r, q, k) && AllFresh(r, q', k + 1)
    ensures AllFresh(r, q + q', k + 1)
  {
    hide SentAt, IsRun;
  }

  lemma NothingTakenYet(p: Play)
    requires IsPlay(p)
    ensures IsRun(p.run) && Takes(p, 0) == [] && AllFresh(p.run, [], 0) && LastFresh(p.run, 0) == -1 && Told(p, 0) == 0
  {
    hide IsRun, Plays;
  }

  lemma {:induction false} TakesAreFresh(p: Play, k: nat)
    requires IsPlay(p) && k < |p.drives|
    ensures AllFresh(p.run, Takes(p, k), k)
  {
    hide *;
    PlayShape(p);
    if k == 0 {
      NothingTakenYet(p);
    } else {
      TakesAreFresh(p, k - 1);
      TakeIsFresh(p, k - 1);
      TakesGrow(p, k - 1);
      MoreAreFresh(p.run, Takes(p, k - 1), TakeAt(p, k - 1), k - 1);
    }
  }

  /** No more than `n` in a row are the same, and none goes back. */
  predicate Spread(q: seq<nat>, n: nat) {
    && (forall i, j :: 0 <= i < j < |q| ==> q[i] <= q[j])
    && (forall i, j :: 0 <= i && i + n <= j < |q| ==> q[i] < q[j])
  }

  /** The last `t` of them, and no others, are `last`. */
  predicate EndsWith(q: seq<nat>, last: int, t: nat) {
    && t <= |q|
    && (forall i :: 0 <= i < |q| ==> q[i] <= last)
    && (forall i :: 0 <= i < |q| - t ==> q[i] < last)
    && (forall i :: |q| - t <= i < |q| ==> q[i] == last)
  }

  lemma SpreadGrows(q: seq<nat>, last: int, t: nat, f: nat, n: nat)
    requires Spread(q, n) && EndsWith(q, last, t)
    requires n > 0 && (f > last || (f == last && t < n))
    ensures Spread(q + [f], n) && EndsWith(q + [f], f, if f > last then 1 else t + 1)
  {
    var r := q + [f];
    forall i, j | 0 <= i < j < |r| ensures r[i] <= r[j] && (i + n <= j ==> r[i] < r[j]) {
      assert r[i] == q[i];
    }
  }

  lemma NewerIsLater(q: seq<nat>, last: int, t: nat, f: nat)
    requires EndsWith(q, last, t) && f > last
    ensures EndsWith(q, f, 0)
  {
  }

  lemma OriginIs(r: Run, k: nat)
    requires IsRun(r) && k < |r.inputs| && !SentAt(r, k).Nothing?
    ensures Origin(r, k) == LastFresh(r, k + 1)
  {
    hide Sent;
  }

  /** Receipts come in the order of their takes, and no more of one take than the drive was told it. */
  lemma {:induction false} TakesAreSpread(p: Play, k: nat)
    requires IsPlay(p) && k < |p.drives|
    ensures Spread(Takes(p, k), 1 + p.run.states[0].caps.unactedRepeats)
    ensures EndsWith(Takes(p, k), LastFresh(p.run, k), Told(p, k))
  {
    hide *;
    PlayShape(p);
    if k == 0 {
      NothingTakenYet(p);
      NothingIsSpread(1 + p.run.states[0].caps.unactedRepeats);
    } else {
      TakesAreSpread(p, k - 1);
      TakesGrow(p, k - 1);
      TakeSpreads(p, k - 1, Takes(p, k - 1));
    }
  }

  lemma TakeSpreads(p: Play, k: nat, q: seq<nat>)
    requires IsPlay(p) && k < |p.moves|
    requires Spread(q, 1 + p.run.states[0].caps.unactedRepeats)
    requires EndsWith(q, LastFresh(p.run, k), Told(p, k))
    ensures Spread(q + TakeAt(p, k), 1 + p.run.states[0].caps.unactedRepeats)
    ensures EndsWith(q + TakeAt(p, k), LastFresh(p.run, k + 1), Told(p, k + 1))
  {
    hide *;
    PlayShape(p);
    ToldIsBounded(p, k + 1);
    TakeTells(p, k);
    var n, last, t := 1 + p.run.states[0].caps.unactedRepeats, LastFresh(p.run, k), Told(p, k);
    if TakeAt(p, k) != [] {
      SpreadGrows(q, last, t, LastFresh(p.run, k + 1), n);
    } else {
      assert q + [] == q;
      if LastFresh(p.run, k + 1) != last {
        NewerIsLater(q, last, t, k);
      }
    }
  }

  /** One step of a play, as far as takes are concerned. */
  lemma TakeTells(p: Play, k: nat)
    requires IsPlay(p) && k < |p.moves|
    ensures var f, t, q := LastFresh(p.run, k + 1), Told(p, k + 1), TakeAt(p, k);
      && (f == LastFresh(p.run, k) || f == k)
      && (q == [] || (q == [f] && f >= 0))
      && t == (if f == LastFresh(p.run, k) then Told(p, k) else 0) + |q|
  {
    PlayShape(p);
    hide IsPlay, IsRun, Sent, Origin;
    if Arrives(p, k) {
      OriginIs(p.run, k);
    }
  }

  lemma NothingIsSpread(n: nat)
    ensures Spread([], n) && EndsWith([], -1, 0)
  {
  }

  // ----- the calls behind the takes -----

  lemma FreshEmpties(c: Core, now: Millis, input: Input)
    requires Possible(input) && Sent(c, now, input).Fresh?
    ensures Next(c, now, input).slot.next == NoCommand && Filled(c, input).None?
  {
    var s := Received(c, input);
    ReceivedTouches(c, input);
    ExchangeParts(c, now, input);
    PollEmpties(s, now);
    hide Received, Next, Core.Poll, Core.Choose;
  }

  lemma PollEmpties(c: Core, now: Millis)
    requires c.Choose(now).Fresh?
    ensures c.Poll(now).slot.next == NoCommand
  {
    hide Core.Ready;
  }

  /** What is in the slot was put there after the last command was taken out of it. */
  lemma {:induction false} SlotIsNewer(r: Run, k: nat)
    requires IsRun(r) && k < |r.states| && r.states[k].slot.next != NoCommand
    ensures LastFill(r, k) > LastFresh(r, k)
  {
    hide Next, Sent, Filled;
    if k > 0 {
      var c, now, input := r.states[k - 1], Shown(r.times[k - 1]), r.inputs[k - 1];
      assert IsStep(r, k - 1);
      StepSlot(c, now, input);
      if SentAt(r, k - 1).Fresh? {
        FreshEmpties(c, now, input);
      } else if FilledAt(r, k - 1).None? {
        SlotIsNewer(r, k - 1);
      }
    }
  }

  lemma AskersDiffer(r: Run, f: nat, g: nat)
    requires IsRun(r) && f < g < |r.inputs| && SentAt(r, f).Fresh? && SentAt(r, g).Fresh?
    ensures Asked(r, f) < f < Asked(r, g)
  {
    hide Sent, Filled;
    assert IsStep(r, g);
    FreshComesFromSlot(r.states[g], Shown(r.times[g]), r.inputs[g]);
    SlotIsNewer(r, g);
    LastFreshIs(r, g);
  }

  /** For every receipt before step `k`, the accepted call it goes back to. */
  ghost function Askers(p: Play, k: nat): (a: seq<nat>)
    requires IsPlay(p) && k < |p.drives|
  {
    TakesAreFresh(p, k);
    var r, q := p.run, Takes(p, k);
    seq(|q|, i requires 0 <= i < |q| && q[i] < |r.inputs| && SentAt(r, q[i]).Fresh? => Asked(r, q[i]))
  }

  lemma AskersAre(p: Play, k: nat)
    requires IsPlay(p) && k < |p.drives|
    ensures |Askers(p, k)| == |Takes(p, k)|
    ensures forall i :: 0 <= i < |Takes(p, k)| ==>
      && Takes(p, k)[i] < k && SentAt(p.run, Takes(p, k)[i]).Fresh?
      && Askers(p, k)[i] == Asked(p.run, Takes(p, k)[i])
  {
    TakesAreFresh(p, k);
    hide IsPlay, IsRun, SentAt, Takes, Asked;
  }

  lemma {:induction false} AskersAreSpread(p: Play, k: nat)
    requires IsPlay(p) && k < |p.drives|
    ensures Spread(Askers(p, k), 1 + p.run.states[0].caps.unactedRepeats)
  {
    hide *;
    PlayShape(p);
    TakesAreSpread(p, k);
    AskersAre(p, k);
    var q, a := Takes(p, k), Askers(p, k);
    forall i, j | 0 <= i < j < |q| ensures a[i] <= a[j] && (q[i] < q[j] ==> a[i] < a[j]) {
      if q[i] < q[j] {
        AskersDiffer(p.run, q[i], q[j]);
      } else {
        SpreadOrders(q, 1 + p.run.states[0].caps.unactedRepeats, i, j);
      }
    }
    StaysSpread(q, a, 1 + p.run.states[0].caps.unactedRepeats);
  }

  lemma SpreadOrders(q: seq<nat>, n: nat, i: nat, j: nat)
    requires Spread(q, n) && i < j < |q|
    ensures q[i] <= q[j]
  {
  }

  lemma StaysSpread(q: seq<nat>, a: seq<nat>, n: nat)
    requires Spread(q, n) && n > 0 && |a| == |q|
    requires forall i, j :: 0 <= i < j < |q| ==> a[i] <= a[j] && (q[i] < q[j] ==> a[i] < a[j])
    ensures Spread(a, n)
  {
  }

  /** How many calls have been accepted before step `k`, a stop of the bus's own among them. */
  ghost function Fills(r: Run, k: nat): nat
    requires IsRun(r) && k < |r.states|
  {
    if k == 0 then 0 else Fills(r, k - 1) + (if FilledAt(r, k - 1).Some? then 1 else 0)
  }

  lemma {:induction false} FillsGrow(r: Run, i: nat, k: nat)
    requires IsRun(r) && i <= k < |r.states|
    ensures Fills(r, i) <= Fills(r, k)
  {
    hide Filled;
    if i < k {
      FillsGrow(r, i, k - 1);
    }
  }

  lemma {:induction false} SpreadIsCounted(r: Run, a: seq<nat>, n: nat, k: nat)
    requires IsRun(r) && k < |r.states| && n > 0
    requires Spread(a, n) && forall i :: 0 <= i < |a| ==> a[i] < k && FilledAt(r, a[i]).Some?
    ensures |a| <= n * Fills(r, k)
    decreases |a|
  {
    hide FilledAt, IsRun, Spread;
    if a != [] {
      var last := a[|a| - 1];
      FillsGrow(r, last + 1, k);
      SpreadFront(a, n);
      SpreadIsCounted(r, Front(a, n), n, last);
      Bounded(n, Fills(r, last) + 1, Fills(r, k));
      assert n * (Fills(r, last) + 1) == n * Fills(r, last) + n;
    }
  }

  /** All but the last `n`. */
  function Front(a: seq<nat>, n: nat): seq<nat> {
    if |a| <= n then [] else a[..|a| - n]
  }

  lemma SpreadFront(a: seq<nat>, n: nat)
    requires Spread(a, n) && a != []
    ensures Spread(Front(a, n), n) && |a| <= |Front(a, n)| + n
    ensures forall i :: 0 <= i < |Front(a, n)| ==> Front(a, n)[i] < a[|a| - 1] && Front(a, n)[i] == a[i]
  {
  }

  lemma Bounded(n: nat, x: nat, y: nat)
    requires x <= y
    ensures n * x <= n * y
  {
  }

  // ----- orders, as bytes -----

  /** What the drive has obeyed before step `k`, in order. */
  ghost function OrdersIn(s: Session, k: nat): seq<(Word, Word)>
    requires IsSession(s) && k < |s.drives|
  {
    if k == 0 then []
    else OrdersIn(s, k - 1) + OrderAt(s, k - 1)
  }

  ghost function OrderAt(s: Session, k: nat): seq<(Word, Word)>
    requires IsSession(s) && k < |s.moves|
  {
    if s.moves[k].Poll? && s.moves[k].fate == Delivered then OrderOf(AnswerAt(s.tape, k)) else []
  }

  /** What an answer that reaches the drive has it do. */
  function OrderOf(answer: seq<Byte>): seq<(Word, Word)> {
    if Obeyed(answer) == (0, 0) then [] else [Obeyed(answer)]
  }

  lemma {:induction false} TakenIsOrigin(r: Run, k: nat)
    requires IsRun(r) && k < |r.states|
    ensures Taken(r, k) == (if LastFresh(r, k) < 0 then NoCommand else CommandOf(SentAt(r, LastFresh(r, k))))
  {
    hide Sent;
    if k > 0 {
      TakenIsOrigin(r, k - 1);
    }
    LastFreshIs(r, k);
  }

  lemma ObeyedIsTaken(s: Session, k: nat)
    requires IsSession(s) && k < |s.moves|
    ensures IsRun(RunOf(s.tape))
    ensures var r, got := RunOf(s.tape), Obeyed(AnswerAt(s.tape, k));
      && (got == (0, 0) <==> SentAt(r, k).Nothing?)
      && (got != (0, 0) ==> got == CommandValues(SentAt(r, Origin(r, k)).cmd))
  {
    var r := RunOf(s.tape);
    ObeyedIsSent(s.tape, k);
    hide Obeyed, AnswerAt, CommandValues, IsRun, Sent, StateIn, InputIn;
    CommandsAreTold(CommandOf(SentAt(r, k)), NoCommand);
    if !SentAt(r, k).Nothing? {
      SentIsReal(r, k);
      OriginIs(r, k);
      Logged.TakenIsSent(r, k);
      TakenIsOrigin(r, k + 1);
    }
  }

  lemma SessionShape(s: Session)
    requires IsSession(s)
    ensures IsRecording(s.tape) && |s.drives| == |s.moves| + 1
    ensures IsRun(RunOf(s.tape)) && IsPlay(PlayOf(s)) && PlayOf(s).run == RunOf(s.tape) && PlayOf(s).moves == s.moves
    ensures |s.moves| == |s.tape.acts| && |PlayOf(s).drives| == |s.drives|
  {
    SessionIsPlay(s);
    hide IsRecording, RunOf, IsRun, Plays;
  }

  /** Order for order the command that was taken out of the slot at these steps. */
  ghost predicate SayTheSame(o: seq<(Word, Word)>, q: seq<nat>, r: Run)
    requires IsRun(r)
  {
    |o| == |q| && forall i :: 0 <= i < |q| ==>
      q[i] < |r.inputs| && SentAt(r, q[i]).Fresh? && o[i] == CommandValues(SentAt(r, q[i]).cmd)
  }

  lemma OrderIsTake(s: Session, k: nat)
    requires IsSession(s) && k < |s.moves|
    ensures IsPlay(PlayOf(s)) && IsRun(RunOf(s.tape))
    ensures SayTheSame(OrderAt(s, k), TakeAt(PlayOf(s), k), RunOf(s.tape))
  {
    hide Obeyed, AnswerAt, CommandValues, IsPlay, IsRun, SentAt, Origin, IsSession,
      IsRecording, RunOf, StateIn, InputIn;
    SessionShape(s);
    ObeyedIsTaken(s, k);
  }

  lemma MoreIsSaid(o: seq<(Word, Word)>, q: seq<nat>, o': seq<(Word, Word)>, q': seq<nat>, r: Run)
    requires IsRun(r) && SayTheSame(o, q, r) && SayTheSame(o', q', r)
    ensures SayTheSame(o + o', q + q', r)
  {
    hide IsRun, SentAt, CommandValues;
  }

  lemma NothingIsOrdered(s: Session)
    requires IsSession(s) && IsPlay(PlayOf(s)) && IsRun(RunOf(s.tape))
    ensures SayTheSame(OrdersIn(s, 0), Takes(PlayOf(s), 0), RunOf(s.tape))
  {
    hide IsPlay, IsRun, IsRecording, StateIn, InputIn;
  }

  lemma OrdersGrow(s: Session, k: nat)
    requires IsSession(s) && 0 < k < |s.drives|
    ensures OrdersIn(s, k) == OrdersIn(s, k - 1) + OrderAt(s, k - 1)
  {
    hide OrderAt;
  }

  lemma {:induction false} OrdersAreTakes(s: Session, k: nat)
    requires IsSession(s) && k < |s.drives|
    ensures IsPlay(PlayOf(s)) && IsRun(RunOf(s.tape))
    ensures SayTheSame(OrdersIn(s, k), Takes(PlayOf(s), k), RunOf(s.tape))
  {
    hide *;
    SessionShape(s);
    var p, r := PlayOf(s), RunOf(s.tape);
    if k == 0 {
      NothingIsOrdered(s);
    } else {
      OrdersAreTakes(s, k - 1);
      OrderIsTake(s, k - 1);
      OrdersGrow(s, k);
      TakesGrow(p, k - 1);
      MoreIsSaid(OrdersIn(s, k - 1), Takes(p, k - 1), OrderAt(s, k - 1), TakeAt(p, k - 1), r);
    }
  }

  /**
   * Whatever is lost on the way, every order the drive obeys goes back to an
   * accepted call and says what that call meant, the orders keep the order of
   * the calls, and no call is obeyed more than twice.
   */
  lemma {:induction false} EveryOrderWasAskedFor(s: Session, k: nat)
    requires IsSession(s) && k < |s.drives|
    ensures IsPlay(PlayOf(s))
    ensures var o, a, r := OrdersIn(s, k), Askers(PlayOf(s), k), RunOf(s.tape);
      && |o| == |a| && Spread(a, 2)
      && (forall i :: 0 <= i < |a| ==> a[i] < k && FilledAt(r, a[i]).Some?
                                       && o[i] == CommandValues(Meant(FilledAt(r, a[i]).value)))
      && |o| <= 2 * Fills(r, k)
  {
    hide StateIn, InputIn;
    OrdersAreTakes(s, k);
    var p, r := PlayOf(s), RunOf(s.tape);
    Logged.CapsInRun(s.tape);
    AskersAre(p, k);
    AskersAreSpread(p, k);
    var q, a := Takes(p, k), Askers(p, k);
    forall i | 0 <= i < |a|
      ensures a[i] < k && FilledAt(r, a[i]).Some?
      ensures SentAt(r, q[i]).cmd == Meant(FilledAt(r, a[i]).value)
    {
      FreshIsNotStale(r, q[i]);
    }
    hide IsPlay, SentAt, FilledAt, CommandValues, OrdersIn, Takes, Asked;
    SpreadIsCounted(r, a, 2, k);
  }
}
