/**
 * The command slot of the newer bus between its two tasks, one step per atomic
 * operation and in every interleaving: the loop fills it and drops from it, the
 * bus empties it and, arriving at a go-to target, stops into it.
 */
module SlotSteps {
  import opened HcpTypes

  /** Where the loop is in a call. `id` tells calls apart, `at` is the time it was given. */
  datatype Caller =
    | AtRest
    | Asked(cmd: Command, id: nat, at: nat)
    | Saved(cmd: Command, id: nat, at: nat, previous: nat)
    | Stamped(cmd: Command, id: nat, at: nat, previous: nat)
    | Refused(previous: nat)
    | StopAsked(id: nat, at: nat)
    | StopStamped(id: nat, at: nat)
    | StopStored

  /** Where the bus is in a poll, and what it took into its hands. */
  datatype Poller =
    | Idle
    // the slot was read; what it held, and in which call that was stored
    | Found(cmd: Command, id: nat)
    | Nothing(wasStop: bool)
    | Expiring(cmd: Command, id: nat)
    | Stopping(id: nat)
    | Taking(cmd: Command, id: nat, wasStop: bool)
    | Telling(cmd: Command, id: nat, wasStop: bool)
    | GoalStamped(id: nat)
    | GoalStored

  /**
   * The shared words and the two tasks. `slotId`, `accepted`, `sent` and `stopIn`
   * are history: whose command the slot holds, how many calls were accepted and
   * commands sent, and whether a stop was stored during this poll and not dropped.
   */
  datatype State = State(
    slot: Command,
    slotId: nat,
    stampedOn: nat,
    cancel: bool,
    caller: Caller,
    poller: Poller,
    calls: nat,
    accepted: nat,
    sent: nat,
    stopIn: bool)

  const START := State(NoCommand, 0, 0, false, AtRest, Idle, 0, 0, 0, false)

  datatype Step =
    // the loop
    | Call(cmd: Command, at: nat)
    | CallStop(at: nat)
    | Save
    | Stamp
    | Fill
    | Restore
    | StampStop
    | StoreStop
    | CancelWatch
    | DropSlot
    // the bus
    | Load
    | Judge(stale: bool)
    | Expire
    | ResolveStop(moving: bool)
    | Take
    | Tell
    | EndPoll
    | StampGoal(at: nat)
    | StoreGoal
    | CancelGoal

  /** The bus is within a poll that reads the slot. */
  predicate Polling(p: Poller) {
    !p.Idle? && !p.GoalStamped? && !p.GoalStored?
  }

  predicate Enabled(s: State, t: Step) {
    match t
    case Call(cmd, _) => s.caller == AtRest && cmd != NoCommand
    case CallStop(_) => s.caller == AtRest
    case Save => s.caller.Asked?
    case Stamp => s.caller.Saved?
    case Fill => s.caller.Stamped?
    case Restore => s.caller.Refused?
    case StampStop => s.caller.StopAsked?
    case StoreStop => s.caller.StopStamped?
    case CancelWatch => s.caller == StopStored
    case DropSlot => s.caller == AtRest
    case Load => s.poller == Idle
    case Judge(_) => s.poller.Found?
    case Expire => s.poller.Expiring?
    case ResolveStop(_) => s.poller.Stopping?
    case Take => s.poller.Taking?
    case Tell => s.poller.Telling?
    case EndPoll => s.poller.Nothing?
    case StampGoal(_) => s.poller == Idle
    case StoreGoal => s.poller.GoalStamped?
    case CancelGoal => s.poller == GoalStored
  }

  /** Compare-exchange with an empty slot, expecting `taken`. */
  function ClearIfStill(s: State, taken: Command): State {
    if s.slot == taken then s.(slot := NoCommand) else s
  }

  function Apply(s: State, t: Step): State
    requires Enabled(s, t)
  {
    match t
    case Call(cmd, at) => s.(caller := Asked(cmd, s.calls + 1, at), calls := s.calls + 1)
    case CallStop(at) => s.(caller := StopAsked(s.calls + 1, at), calls := s.calls + 1)
    case Save => s.(caller := Saved(s.caller.cmd, s.caller.id, s.caller.at, s.stampedOn))
    case Stamp =>
      s.(caller := Stamped(s.caller.cmd, s.caller.id, s.caller.at, s.caller.previous), stampedOn := s.caller.at)
    case Fill =>
      if s.slot == NoCommand
      then s.(slot := s.caller.cmd, slotId := s.caller.id, accepted := s.accepted + 1, caller := AtRest,
              stopIn := s.stopIn || s.caller.cmd == Stop)
      else s.(caller := Refused(s.caller.previous))
    case Restore => s.(stampedOn := s.caller.previous, caller := AtRest)
    case StampStop => s.(stampedOn := s.caller.at, caller := StopStamped(s.caller.id, s.caller.at))
    case StoreStop =>
      s.(slot := Stop, slotId := s.caller.id, accepted := s.accepted + 1, caller := StopStored, stopIn := true)
    case CancelWatch => s.(cancel := true, caller := AtRest)
    case DropSlot => s.(slot := NoCommand, stopIn := false)
    case Load => s.(poller := if s.slot == NoCommand then Nothing(false) else Found(s.slot, s.slotId), stopIn := false)
    case Judge(stale) =>
      s.(poller := if stale then Expiring(s.poller.cmd, s.poller.id)
                   else if s.poller.cmd == Stop then Stopping(s.poller.id)
                   else Taking(s.poller.cmd, s.poller.id, false))
    case Expire => ClearIfStill(s, s.poller.cmd).(poller := Idle)
    case ResolveStop(moving) =>
      ClearIfStill(s, Stop).(poller := if moving then Taking(Impulse, s.poller.id, true) else Nothing(true))
    case Take => ClearIfStill(s, s.poller.cmd).(poller := Telling(s.poller.cmd, s.poller.id, s.poller.wasStop))
    case Tell => s.(poller := Idle, sent := s.sent + 1)
    case EndPoll => s.(poller := Idle)
    case StampGoal(at) => s.(stampedOn := at, poller := GoalStamped(s.calls + 1), calls := s.calls + 1)
    case StoreGoal => s.(slot := Stop, slotId := s.poller.id, accepted := s.accepted + 1, poller := GoalStored)
    case CancelGoal => s.(cancel := true, poller := Idle)
  }

  // ----- what goes out was let in -----

  /** The bus is at the command of this call, to send it or to let it expire. */
  predicate AtCall(p: Poller, id: nat) {
    match p
    case Found(_, i) => i == id
    case Expiring(_, i) => i == id
    case Stopping(i) => i == id
    case Taking(_, i, _) => i == id
    case Telling(_, i, _) => i == id
    case _ => false
  }

  predicate InSlot(s: State, id: nat) {
    s.slot != NoCommand && s.slotId == id
  }

  /** A command in the bus's hands that the slot no longer stands for. */
  predicate Apart(s: State) {
    match s.poller
    case Found(_, id) => !InSlot(s, id)
    case Stopping(id) => !InSlot(s, id)
    case Taking(_, id, _) => !InSlot(s, id)
    case Telling(_, _, _) => true
    case _ => false
  }

  /** The loop is in this call and has not stored it yet. */
  predicate InCall(c: Caller, id: nat) {
    match c
    case Asked(_, i, _) => i == id
    case Saved(_, i, _, _) => i == id
    case Stamped(_, i, _, _) => i == id
    case StopAsked(i, _) => i == id
    case StopStamped(i, _) => i == id
    case _ => false
  }

  /** Every call number in use has been given out, and each to one call only. */
  ghost predicate Numbered(s: State) {
    && s.slotId <= s.calls
    && (forall id: nat :: AtCall(s.poller, id) ==> id <= s.calls)
    && (forall id: nat :: InCall(s.caller, id) ==> id <= s.calls && id != s.slotId && !AtCall(s.poller, id))
    && (s.poller.GoalStamped? ==>
          s.poller.id <= s.calls && s.poller.id != s.slotId && !InCall(s.caller, s.poller.id))
  }

  predicate Held(s: State) {
    && (match s.poller
        case Found(cmd, id) => cmd != NoCommand && (InSlot(s, id) ==> s.slot == cmd)
        case Stopping(id) => InSlot(s, id) ==> s.slot == Stop
        case Taking(cmd, id, wasStop) =>
          cmd != NoCommand && cmd != Stop && (InSlot(s, id) ==> s.slot == cmd && !wasStop)
        case Telling(_, id, _) => !InSlot(s, id)
        case Expiring(cmd, id) => cmd != NoCommand && (InSlot(s, id) ==> s.slot == cmd)
        case _ => true)
    && (s.caller.Asked? || s.caller.Saved? || s.caller.Stamped? ==> s.caller.cmd != NoCommand)
  }

  /** What was sent, and what still may be, was accepted. */
  predicate Covered(s: State) {
    s.sent + (if s.slot != NoCommand then 1 else 0) + (if Apart(s) then 1 else 0) <= s.accepted
  }

  ghost predicate Inv(s: State) {
    Numbered(s) && Held(s) && Covered(s)
  }

  lemma NumbersKeep(s: State, t: Step)
    requires Inv(s) && Enabled(s, t)
    ensures Numbered(Apply(s, t))
  {
    var d := Apply(s, t);
    forall id: nat | AtCall(d.poller, id) ensures id <= d.calls {
      assert AtCall(s.poller, id) ==> id <= s.calls;
    }
    forall id: nat | InCall(d.caller, id) ensures id <= d.calls && id != d.slotId && !AtCall(d.poller, id) {
      assert InCall(s.caller, id) ==> id <= s.calls && id != s.slotId && !AtCall(s.poller, id);
      assert AtCall(s.poller, id) ==> id <= s.calls;
    }
    assert s.caller.Stamped? ==> InCall(s.caller, s.caller.id);
    assert s.caller.StopStamped? ==> InCall(s.caller, s.caller.id);
  }

  lemma HeldKeeps(s: State, t: Step)
    requires Inv(s) && Enabled(s, t)
    ensures Held(Apply(s, t))
  {
    assert s.caller.Stamped? ==> InCall(s.caller, s.caller.id);
    assert s.caller.StopStamped? ==> InCall(s.caller, s.caller.id);
  }

  lemma CoverKeeps(s: State, t: Step)
    requires Inv(s) && Enabled(s, t)
    ensures Covered(Apply(s, t))
  {
    assert s.caller.Stamped? ==> InCall(s.caller, s.caller.id);
    assert s.caller.StopStamped? ==> InCall(s.caller, s.caller.id);
  }

  lemma StepKeeps(s: State, t: Step)
    requires Inv(s) && Enabled(s, t)
    ensures Inv(Apply(s, t))
  {
    NumbersKeep(s, t);
    HeldKeeps(s, t);
    CoverKeeps(s, t);
    hide Apply, Numbered, Held, Covered;
  }

  /** A stop stored while the bus is at a poll that did not itself find one. */
  predicate StopKept(s: State) {
    s.stopIn && Polling(s.poller) && !OfStop(s.poller) ==> s.slot == Stop
  }

  /** The poll took a stop out of the slot. */
  predicate OfStop(p: Poller) {
    match p
    case Found(cmd, _) => cmd == Stop
    case Expiring(cmd, _) => cmd == Stop
    case Stopping(_) => true
    case Taking(_, _, wasStop) => wasStop
    case Telling(_, _, wasStop) => wasStop
    case Nothing(wasStop) => wasStop
    case _ => false
  }

  lemma StopKeeps(s: State, t: Step)
    requires Held(s) && StopKept(s) && Enabled(s, t)
    ensures StopKept(Apply(s, t))
  {
  }

  // ----- every interleaving -----

  datatype Trace = Trace(states: seq<State>, steps: seq<Step>)

  ghost predicate IsTrace(h: Trace) {
    && |h.states| == |h.steps| + 1
    && h.states[0] == START
    && forall k :: 0 <= k < |h.steps| ==> Steps(h, k)
  }

  ghost predicate Steps(h: Trace, k: nat)
    requires k < |h.steps| == |h.states| - 1
  {
    Enabled(h.states[k], h.steps[k]) && h.states[k + 1] == Apply(h.states[k], h.steps[k])
  }

  lemma {:induction false} AlwaysHolds(h: Trace, k: nat)
    requires IsTrace(h) && k < |h.states|
    ensures Inv(h.states[k]) && StopKept(h.states[k])
  {
    if k > 0 {
      AlwaysHolds(h, k - 1);
      assert Steps(h, k - 1);
      StepKeeps(h.states[k - 1], h.steps[k - 1]);
      StopKeeps(h.states[k - 1], h.steps[k - 1]);
      hide Apply, Inv, StopKept, Enabled;
    }
  }

  /** In every interleaving, no more commands are sent than calls were accepted. */
  lemma SentWasAccepted(h: Trace, k: nat)
    requires IsTrace(h) && k < |h.states|
    ensures h.states[k].sent <= h.states[k].accepted
  {
    AlwaysHolds(h, k);
    hide IsTrace;
  }

  /**
   * A stop stored while the bus is at a poll that had found no stop is still in the
   * slot when that poll ends, unless the loop dropped it.
   */
  lemma StopSurvivesThePoll(h: Trace, k: nat)
    requires IsTrace(h) && k < |h.steps|
    requires Polling(h.states[k].poller) && !Polling(h.states[k + 1].poller)
    requires !OfStop(h.states[k].poller) && h.states[k].stopIn
    ensures h.states[k + 1].slot == Stop
  {
    AlwaysHolds(h, k);
    assert Steps(h, k);
    hide IsTrace, Numbered, Covered;
  }

  // ----- what becomes of each call -----

  /** A call is stored, waits, is taken in hand, and ends sent, found to mean nothing, or discarded unseen. */
  datatype Fate = Unstored | Waiting | InHand | Sent | Void | Discarded

  predicate Stores(s: State, t: Step, id: nat) {
    || (t.Fill? && s.slot == NoCommand && s.caller.Stamped? && s.caller.id == id)
    || (t.StoreStop? && s.caller.StopStamped? && s.caller.id == id)
    || (t.StoreGoal? && s.poller.GoalStamped? && s.poller.id == id)
  }

  predicate Sends(s: State, t: Step, id: nat) {
    t.Tell? && s.poller.Telling? && s.poller.id == id
  }

  /** The command turns out to be stale, or a stop for a standing door. */
  predicate Voids(s: State, t: Step, id: nat) {
    || (t.Judge? && t.stale && s.poller.Found? && s.poller.id == id)
    || (t.ResolveStop? && !t.moving && s.poller.Stopping? && s.poller.id == id)
  }

  /** A compare-exchange of the bus that finds what it expects. */
  predicate Clears(s: State, t: Step) {
    || (t.Expire? && s.poller.Expiring? && s.slot == s.poller.cmd)
    || (t.Take? && s.poller.Taking? && s.slot == s.poller.cmd)
    || (t.ResolveStop? && s.slot == Stop)
  }

  /**
   * The slot loses this call's command while the bus is not at it: dropped, replaced
   * by a stop, or cleared together with another call's command that is the same.
   */
  predicate Discards(s: State, t: Step, id: nat) {
    InSlot(s, id) && !AtCall(s.poller, id) && (t.DropSlot? || t.StoreStop? || t.StoreGoal? || Clears(s, t))
  }

  function NextFate(s: State, t: Step, id: nat, f: Fate): Fate {
    match f
    case Unstored => if Stores(s, t, id) then Waiting else f
    case Waiting => if t.Load? then InHand else if Discards(s, t, id) then Discarded else f
    case InHand => if Sends(s, t, id) then Sent else if Voids(s, t, id) then Void else f
    case _ => f
  }

  /** What a fate means for the slot and the two tasks. */
  predicate IsFate(s: State, id: nat, f: Fate) {
    && (f != Unstored ==>
          id <= s.calls && !InCall(s.caller, id) && !(s.poller.GoalStamped? && s.poller.id == id))
    && match f
       case Unstored => s.slotId != id && !AtCall(s.poller, id)
       case Waiting => InSlot(s, id) && !AtCall(s.poller, id)
       case InHand => AtCall(s.poller, id) && !s.poller.Expiring?
       case Void => (AtCall(s.poller, id) ==> s.poller.Expiring?) && (InSlot(s, id) ==> AtCall(s.poller, id))
       case _ => !InSlot(s, id) && !AtCall(s.poller, id)
  }

  predicate OfLoop(t: Step) {
    || t.Call? || t.CallStop? || t.Save? || t.Stamp? || t.Fill? || t.Restore?
    || t.StampStop? || t.StoreStop? || t.CancelWatch? || t.DropSlot?
  }

  lemma LoopFate(s: State, t: Step, id: nat, f: Fate)
    requires Inv(s) && Enabled(s, t) && IsFate(s, id, f) && OfLoop(t)
    ensures IsFate(Apply(s, t), id, NextFate(s, t, id, f))
  {
    hide Covered;
    assert InCall(s.caller, id) ==> id <= s.calls && id != s.slotId && !AtCall(s.poller, id);
  }

  lemma BusFate(s: State, t: Step, id: nat, f: Fate)
    requires Inv(s) && Enabled(s, t) && IsFate(s, id, f) && !OfLoop(t)
    ensures IsFate(Apply(s, t), id, NextFate(s, t, id, f))
  {
    hide Covered;
  }

  lemma FateStep(s: State, t: Step, id: nat, f: Fate)
    requires Inv(s) && Enabled(s, t) && IsFate(s, id, f)
    ensures IsFate(Apply(s, t), id, NextFate(s, t, id, f))
  {
    hide Inv, Apply, IsFate, NextFate;
    if OfLoop(t) {
      LoopFate(s, t, id, f);
    } else {
      BusFate(s, t, id, f);
    }
  }

  /** Each fate comes from the step it is named after. */
  lemma FateFromStep(s: State, t: Step, id: nat, f: Fate)
    requires Enabled(s, t) && IsFate(s, id, f)
    ensures var g := NextFate(s, t, id, f);
      && (g != Unstored <==> f != Unstored || Stores(s, t, id))
      && (g == Sent <==> f == Sent || Sends(s, t, id))
      && (g == Void <==> f == Void || Voids(s, t, id))
      && (g == Discarded <==> f == Discarded || Discards(s, t, id))
    ensures Sends(s, t, id) ==> f == InHand
  {
    hide Apply;
  }

  ghost function FateAt(h: Trace, k: nat, id: nat): Fate
    requires IsTrace(h) && k < |h.states|
  {
    if k == 0 then Unstored else NextFate(h.states[k - 1], h.steps[k - 1], id, FateAt(h, k - 1, id))
  }

  lemma {:induction false} FateHolds(h: Trace, k: nat, id: nat)
    requires IsTrace(h) && k < |h.states| && id > 0
    ensures IsFate(h.states[k], id, FateAt(h, k, id))
  {
    if k > 0 {
      FateHolds(h, k - 1, id);
      AlwaysHolds(h, k - 1);
      assert Steps(h, k - 1);
      FateStep(h.states[k - 1], h.steps[k - 1], id, FateAt(h, k - 1, id));
      hide Apply, Enabled, Inv, IsFate, NextFate;
    }
  }

  /** One step of a trace, seen from a call. */
  ghost predicate StoredAt(h: Trace, j: nat, id: nat)
    requires IsTrace(h) && j < |h.steps|
  {
    Stores(h.states[j], h.steps[j], id)
  }

  ghost predicate SentAt(h: Trace, j: nat, id: nat)
    requires IsTrace(h) && j < |h.steps|
  {
    Sends(h.states[j], h.steps[j], id)
  }

  ghost predicate VoidAt(h: Trace, j: nat, id: nat)
    requires IsTrace(h) && j < |h.steps|
  {
    Voids(h.states[j], h.steps[j], id)
  }

  ghost predicate DiscardedAt(h: Trace, j: nat, id: nat)
    requires IsTrace(h) && j < |h.steps|
  {
    Discards(h.states[j], h.steps[j], id)
  }

  lemma StepOf(h: Trace, j: nat, id: nat)
    requires IsTrace(h) && j < |h.steps|
    ensures StoredAt(h, j, id) == Stores(h.states[j], h.steps[j], id)
    ensures SentAt(h, j, id) == Sends(h.states[j], h.steps[j], id)
    ensures VoidAt(h, j, id) == Voids(h.states[j], h.steps[j], id)
    ensures DiscardedAt(h, j, id) == Discards(h.states[j], h.steps[j], id)
  {
  }

  /** A fate is reached by the step it is named after, and by no other. */
  lemma {:induction false} FateIff(h: Trace, k: nat, id: nat)
    requires IsTrace(h) && k < |h.states| && id > 0
    ensures FateAt(h, k, id) != Unstored <==> exists j :: 0 <= j < k && StoredAt(h, j, id)
    ensures FateAt(h, k, id) == Sent <==> exists j :: 0 <= j < k && SentAt(h, j, id)
    ensures FateAt(h, k, id) == Void <==> exists j :: 0 <= j < k && VoidAt(h, j, id)
    ensures FateAt(h, k, id) == Discarded <==> exists j :: 0 <= j < k && DiscardedAt(h, j, id)
  {
    if k > 0 {
      hide Apply, Enabled, IsFate, Sends, Voids, Discards, Stores, NextFate;
      FateIff(h, k - 1, id);
      FateHolds(h, k - 1, id);
      assert Steps(h, k - 1);
      FateFromStep(h.states[k - 1], h.steps[k - 1], id, FateAt(h, k - 1, id));
      StepOf(h, k - 1, id);
      hide IsTrace, StoredAt, SentAt, VoidAt, DiscardedAt;
    }
  }

  /** In every interleaving no call is ever sent twice. */
  lemma {:induction false} SentAtMostOnce(h: Trace, i: nat, j: nat, id: nat)
    requires IsTrace(h) && i < j < |h.steps| && id > 0 && SentAt(h, i, id)
    ensures !SentAt(h, j, id)
  {
    hide Apply, Enabled, Inv, IsFate, Sends, Voids, Discards, Stores;
    FateIff(h, j, id);
    FateHolds(h, j, id);
    assert Steps(h, j);
    FateFromStep(h.states[j], h.steps[j], id, FateAt(h, j, id));
    StepOf(h, j, id);
    hide IsTrace;
  }

  /**
   * Between polls, a call that was accepted has not been sent exactly where it still
   * waits in the slot, was found stale or a stop for a standing door, or was
   * discarded: dropped, replaced by a stop, or cleared with one that is the same.
   */
  lemma {:induction false} UnsentIff(h: Trace, k: nat, id: nat)
    requires IsTrace(h) && k < |h.states| && id > 0 && h.states[k].poller == Idle
    requires exists j :: 0 <= j < k && StoredAt(h, j, id)
    ensures (forall j :: 0 <= j < k ==> !SentAt(h, j, id)) <==>
      || InSlot(h.states[k], id)
      || (exists j :: 0 <= j < k && VoidAt(h, j, id))
      || (exists j :: 0 <= j < k && DiscardedAt(h, j, id))
  {
    hide StoredAt, SentAt, VoidAt, DiscardedAt, FateAt;
    FateIff(h, k, id);
    FateHolds(h, k, id);
    hide IsTrace;
  }

  // ----- what can be told when a call is stored -----

  /** The command that the bus is about to clear the slot of, whoever put it there by then. */
  function Expected(p: Poller): Command {
    match p
    case Found(cmd, _) => cmd
    case Expiring(cmd, _) => cmd
    case Stopping(_) => Stop
    case Taking(cmd, _, _) => cmd
    case _ => NoCommand
  }

  /** A stop in the bus's hands that may still turn into an impulse. */
  predicate MayResolve(p: Poller) {
    (p.Found? && p.cmd == Stop) || p.Stopping?
  }

  predicate Rewrites(t: Step) {
    t.DropSlot? || t.StoreStop? || t.StoreGoal?
  }

  /** From step `j` up to step `e` the bus stays at one poll, which `e` ends, and nothing is dropped or overwritten. */
  ghost predicate PollGoesOn(h: Trace, j: nat, e: nat)
    requires IsTrace(h) && e < |h.steps|
  {
    && j <= e && h.states[e + 1].poller == Idle
    && (forall m :: j <= m <= e ==> h.states[m].poller != Idle)
    && (forall m :: j <= m <= e ==> !Rewrites(h.steps[m]))
  }

  /** A stop is found to mean an impulse, at some step from `j` to `e`. */
  ghost predicate Resolves(h: Trace, j: nat, e: nat)
    requires IsTrace(h) && e < |h.steps|
  {
    exists m :: j <= m <= e && h.steps[m] == ResolveStop(true)
  }

  ghost predicate LostWithin(h: Trace, j: nat, e: nat, id: nat)
    requires IsTrace(h) && e < |h.steps|
  {
    exists m :: j <= m <= e && DiscardedAt(h, m, id)
  }

  /** One step of the poll, and a command that waits in the slot all the while. */
  lemma PollPasses(s: State, t: Step, id: nat)
    requires Inv(s) && Enabled(s, t) && InSlot(s, id) && !AtCall(s.poller, id) && s.poller != Idle && !Rewrites(t)
    ensures var d := Apply(s, t);
      && (Discards(s, t, id) ==> s.slot == Expected(s.poller) && d.slot == NoCommand)
      && (!Discards(s, t, id) ==> InSlot(d, id) && d.slot == s.slot && !AtCall(d.poller, id))
      && (!Discards(s, t, id) && d.poller == Idle ==> s.slot != Expected(s.poller))
      && (!Discards(s, t, id) && s.slot == Expected(s.poller) ==> s.slot == Expected(d.poller))
      && (!Discards(s, t, id) && s.slot != Expected(s.poller) && s.slot == Expected(d.poller) ==>
            s.slot == Impulse && t == ResolveStop(true))
      && (MayResolve(d.poller) ==> MayResolve(s.poller))
      && (t == ResolveStop(true) ==>
            MayResolve(s.poller) && !MayResolve(d.poller) && Expected(d.poller) == Impulse && d.poller != Idle)
  {
    hide Covered, Numbered;
  }

  lemma {:induction false} ResolvesFrom(h: Trace, j: nat, e: nat)
    requires IsTrace(h) && e < |h.steps| && PollGoesOn(h, j, e) && Resolves(h, j, e)
    ensures MayResolve(h.states[j].poller)
    decreases e - j
  {
    assert Steps(h, j);
    OnlyFoundResolves(h.states[j], h.steps[j]);
    if h.steps[j] != ResolveStop(true) {
      assert PollGoesOn(h, j + 1, e) && Resolves(h, j + 1, e);
      ResolvesFrom(h, j + 1, e);
    }
    hide Apply, Enabled, MayResolve;
  }

  lemma OnlyFoundResolves(s: State, t: Step)
    requires Enabled(s, t) && s.poller != Idle
    ensures MayResolve(Apply(s, t).poller) ==> MayResolve(s.poller)
    ensures t == ResolveStop(true) ==> MayResolve(s.poller)
  {
  }

  lemma PollNext(h: Trace, j: nat, e: nat, id: nat)
    requires IsTrace(h) && e < |h.steps| && PollGoesOn(h, j, e)
    ensures j < e ==> PollGoesOn(h, j + 1, e)
    ensures LostWithin(h, j, e, id) <==> DiscardedAt(h, j, id) || (j < e && LostWithin(h, j + 1, e, id))
    ensures Resolves(h, j, e) <==> h.steps[j] == ResolveStop(true) || (j < e && Resolves(h, j + 1, e))
  {
    hide IsTrace, DiscardedAt;
  }

  /** The rest of a poll, seen by a command that waits in the slot and is not the one in the bus's hands. */
  lemma {:induction false} LostFrom(h: Trace, j: nat, e: nat, id: nat)
    requires IsTrace(h) && e < |h.steps| && PollGoesOn(h, j, e)
    requires InSlot(h.states[j], id) && !AtCall(h.states[j].poller, id)
    ensures LostWithin(h, j, e, id) <==>
      || h.states[j].slot == Expected(h.states[j].poller)
      || (h.states[j].slot == Impulse && Resolves(h, j, e))
    decreases e - j
  {
    var s, t := h.states[j], h.steps[j];
    AlwaysHolds(h, j);
    assert Steps(h, j);
    hide Apply, Enabled, Inv, InSlot, AtCall, Expected, MayResolve, Discards, StopKept;
    PollPasses(s, t, id);
    PollNext(h, j, e, id);
    StepOf(h, j, id);
    hide LostWithin, Resolves;
    if !DiscardedAt(h, j, id) && j < e {
      LostFrom(h, j + 1, e, id);
    }
  }

  /** What a store leaves: the command in the slot, and the bus where it was or done with its own stop. */
  lemma StoreLeaves(s: State, t: Step, id: nat)
    requires Inv(s) && Enabled(s, t) && Stores(s, t, id)
    ensures var d := Apply(s, t);
      && InSlot(d, id) && !AtCall(d.poller, id)
      && (d.poller == s.poller || (t.StoreGoal? && d.poller == GoalStored))
  {
    hide Covered;
    assert s.caller.Stamped? ==> InCall(s.caller, s.caller.id);
    assert s.caller.StopStamped? ==> InCall(s.caller, s.caller.id);
  }

  /**
   * Whether a command that has just been accepted goes with another one can be told
   * from where the bus is when it is stored: the poll that is going on clears it if
   * and only if it is the very command that poll is about to clear the slot of, or
   * it is an impulse and that poll turns a stop into one.
   */
  lemma {:induction false} LostWithThePollIff(h: Trace, j: nat, e: nat, id: nat)
    requires IsTrace(h) && j < e < |h.steps| && id > 0
    requires StoredAt(h, j, id) && PollGoesOn(h, j + 1, e)
    ensures var s := h.states[j + 1];
      && s.slotId == id
      && (LostWithin(h, j + 1, e, id) <==>
            s.slot == Expected(s.poller) || (s.slot == Impulse && Resolves(h, j + 1, e)))
      && (Resolves(h, j + 1, e) ==> MayResolve(h.states[j].poller))
  {
    AlwaysHolds(h, j);
    assert Steps(h, j);
    StepOf(h, j, id);
    hide Apply, Enabled, Inv, AtCall, Expected, MayResolve, Stores, StopKept;
    StoreLeaves(h.states[j], h.steps[j], id);
    LostFrom(h, j + 1, e, id);
    if Resolves(h, j + 1, e) {
      ResolvesFrom(h, j + 1, e);
      assert !MayResolve(GoalStored) by {
        GoalIsNoStop();
      }
    }
    hide IsTrace, PollGoesOn, LostWithin, Resolves;
  }

  lemma GoalIsNoStop()
    ensures !MayResolve(GoalStored)
  {
  }

  /** Between polls, with nothing of the bus's own on its way into the slot but what has not got there. */
  predicate Resting(p: Poller) {
    p.Idle? || p.GoalStamped?
  }

  lemma RestPasses(s: State, t: Step, id: nat)
    requires Inv(s) && Enabled(s, t) && !Rewrites(t) && InSlot(s, id) && Resting(s.poller)
    ensures !Discards(s, t, id)
    ensures t.Load? || (InSlot(Apply(s, t), id) && Resting(Apply(s, t).poller))
  {
    hide Covered, Numbered;
  }

  lemma TakenIsNotDiscarded(s: State, t: Step, id: nat, f: Fate)
    requires Enabled(s, t) && IsFate(s, id, f) && (f == InHand || f == Sent || f == Void)
    ensures !Discards(s, t, id)
    ensures var g := NextFate(s, t, id, f); g == InHand || g == Sent || g == Void
  {
    FateFromStep(s, t, id, f);
    hide Enabled, IsFate, Discards, Sends, Voids, Stores;
  }

  lemma {:induction false} RestsFrom(h: Trace, j: nat, m: nat, id: nat)
    requires IsTrace(h) && j <= m < |h.states| && id > 0
    requires InSlot(h.states[j], id) && Resting(h.states[j].poller)
    requires forall i :: j <= i < m ==> !Rewrites(h.steps[i])
    ensures FateAt(h, m, id) == Waiting ==> InSlot(h.states[m], id) && Resting(h.states[m].poller)
    ensures FateAt(h, m, id) in {Waiting, InHand, Sent, Void}
  {
    if m == j {
      FateHolds(h, m, id);
      RestingIsWaiting(h.states[m], id, FateAt(h, m, id));
    } else {
      AlwaysHolds(h, m - 1);
      assert Steps(h, m - 1);
      FateHolds(h, m - 1, id);
      hide Apply, Enabled, Inv, InSlot, Stores, Resting, StopKept, Discards, Sends, Voids, IsFate, Rewrites;
      RestsFrom(h, j, m - 1, id);
      var s, t, f := h.states[m - 1], h.steps[m - 1], FateAt(h, m - 1, id);
      if f == Waiting {
        RestPasses(s, t, id);
      } else {
        TakenIsNotDiscarded(s, t, id, f);
      }
    }
    hide IsTrace;
  }

  lemma RestingIsWaiting(s: State, id: nat, f: Fate)
    requires IsFate(s, id, f) && InSlot(s, id) && Resting(s.poller)
    ensures f == Waiting
  {
  }

  /** What is in the slot between two polls never goes with another command, unless it is dropped or overwritten. */
  lemma {:induction false} NotLostFromRest(h: Trace, j: nat, m: nat, id: nat)
    requires IsTrace(h) && j <= m < |h.steps| && id > 0
    requires InSlot(h.states[j], id) && Resting(h.states[j].poller)
    requires forall i :: j <= i <= m ==> !Rewrites(h.steps[i])
    ensures !DiscardedAt(h, m, id)
  {
    RestsFrom(h, j, m, id);
    AlwaysHolds(h, m);
    FateHolds(h, m, id);
    assert Steps(h, m);
    StepOf(h, m, id);
    hide Apply, Enabled, Inv, InSlot, Resting, StopKept, Discards, IsFate, Rewrites, IsTrace;
    if FateAt(h, m, id) == Waiting {
      RestPasses(h.states[m], h.steps[m], id);
    } else {
      TakenIsNotDiscarded(h.states[m], h.steps[m], id, FateAt(h, m, id));
    }
  }

  // ----- an interleaving in which a press is lost -----

  ghost predicate Ends(h: Trace, s: State) {
    IsTrace(h) && h.states[|h.states| - 1] == s
  }

  lemma OneMore(h: Trace, s: State, t: Step, d: State) returns (g: Trace)
    requires Ends(h, s) && Enabled(s, t) && d == Apply(s, t)
    ensures Ends(g, d)
    ensures g.steps == h.steps + [t] && g.states == h.states + [d] && |h.states| == |g.steps|
    ensures h.states[|h.steps|] == s
  {
    g := Trace(h.states + [d], h.steps + [t]);
    forall k | 0 <= k < |g.steps| ensures Steps(g, k) {
      assert k < |h.steps| ==> Steps(h, k);
    }
    hide Apply, Enabled;
  }

  lemma StartIsTrace()
    ensures Ends(Trace([START], []), START)
  {
  }

  lemma EndsIsTrace(h: Trace, s: State)
    requires Ends(h, s)
    ensures IsTrace(h)
  {
  }

  /** A stop has come into the slot. */
  lemma AStopIsStored() returns (h: Trace)
    ensures Ends(h, State(Stop, 1, 0, false, StopStored, Idle, 1, 1, 0, true))
  {
    hide Ends;
    h := Trace([START], []);
    assert Ends(h, START) by {
      StartIsTrace();
    }
    h := OneMore(h, START, CallStop(0),
                 State(NoCommand, 0, 0, false, StopAsked(1, 0), Idle, 1, 0, 0, false));
    h := OneMore(h, State(NoCommand, 0, 0, false, StopAsked(1, 0), Idle, 1, 0, 0, false), StampStop,
                 State(NoCommand, 0, 0, false, StopStamped(1, 0), Idle, 1, 0, 0, false));
    h := OneMore(h, State(NoCommand, 0, 0, false, StopStamped(1, 0), Idle, 1, 0, 0, false), StoreStop,
                 State(Stop, 1, 0, false, StopStored, Idle, 1, 1, 0, true));
  }

  /** A poll has just read it. */
  lemma AStopIsFound() returns (h: Trace)
    ensures Ends(h, State(Stop, 1, 0, true, AtRest, Found(Stop, 1), 1, 1, 0, false))
  {
    hide Ends;
    h := AStopIsStored();
    h := OneMore(h, State(Stop, 1, 0, false, StopStored, Idle, 1, 1, 0, true), CancelWatch,
                 State(Stop, 1, 0, true, AtRest, Idle, 1, 1, 0, true));
    h := OneMore(h, State(Stop, 1, 0, true, AtRest, Idle, 1, 1, 0, true), Load,
                 State(Stop, 1, 0, true, AtRest, Found(Stop, 1), 1, 1, 0, false));
  }

  /** The stop has been turned into an impulse when somebody presses the impulse. */
  lemma AnImpulseComesIn() returns (h: Trace)
    ensures Ends(h, State(Impulse, 2, 1, true, AtRest, Taking(Impulse, 1, true), 2, 2, 0, false))
  {
    hide Ends;
    h := AStopIsFound();
    h := OneMore(h, State(Stop, 1, 0, true, AtRest, Found(Stop, 1), 1, 1, 0, false), Judge(false),
                 State(Stop, 1, 0, true, AtRest, Stopping(1), 1, 1, 0, false));
    h := OneMore(h, State(Stop, 1, 0, true, AtRest, Stopping(1), 1, 1, 0, false), ResolveStop(true),
                 State(NoCommand, 1, 0, true, AtRest, Taking(Impulse, 1, true), 1, 1, 0, false));
    h := OneMore(h, State(NoCommand, 1, 0, true, AtRest, Taking(Impulse, 1, true), 1, 1, 0, false), Call(Impulse, 1),
                 State(NoCommand, 1, 0, true, Asked(Impulse, 2, 1), Taking(Impulse, 1, true), 2, 1, 0, false));
    h := OneMore(h, State(NoCommand, 1, 0, true, Asked(Impulse, 2, 1), Taking(Impulse, 1, true), 2, 1, 0, false), Save,
                 State(NoCommand, 1, 0, true, Saved(Impulse, 2, 1, 0), Taking(Impulse, 1, true), 2, 1, 0, false));
    h := OneMore(h, State(NoCommand, 1, 0, true, Saved(Impulse, 2, 1, 0), Taking(Impulse, 1, true), 2, 1, 0, false),
                 Stamp,
                 State(NoCommand, 1, 1, true, Stamped(Impulse, 2, 1, 0), Taking(Impulse, 1, true), 2, 1, 0, false));
    h := OneMore(h, State(NoCommand, 1, 1, true, Stamped(Impulse, 2, 1, 0), Taking(Impulse, 1, true), 2, 1, 0, false),
                 Fill,
                 State(Impulse, 2, 1, true, AtRest, Taking(Impulse, 1, true), 2, 2, 0, false));
  }

  /**
   * A press can be lost here too: everybody is at rest, the slot is empty, a stop and
   * an impulse were accepted and one impulse was sent, because clearing the slot of
   * the impulse the stop had become cleared the one that had just come in.
   */
  lemma AnImpulseCanBeLost()
    ensures exists h, s ::
      && Ends(h, s) && IsTrace(h) && |h.steps| >= 2 && DiscardedAt(h, |h.steps| - 2, s.slotId)
      && h.steps[|h.steps| - 2] == Take && s.slot == NoCommand && s.caller == AtRest && s.poller == Idle
      && s.accepted == 2 && s.sent == 1
  {
    hide Ends;
    var h := AnImpulseComesIn();
    EndsIsTrace(h, State(Impulse, 2, 1, true, AtRest, Taking(Impulse, 1, true), 2, 2, 0, false));
    var s := State(NoCommand, 2, 1, true, AtRest, Idle, 2, 2, 1, false);
    h := OneMore(h, State(Impulse, 2, 1, true, AtRest, Taking(Impulse, 1, true), 2, 2, 0, false), Take,
                 State(NoCommand, 2, 1, true, AtRest, Telling(Impulse, 1, true), 2, 2, 0, false));
    h := OneMore(h, State(NoCommand, 2, 1, true, AtRest, Telling(Impulse, 1, true), 2, 2, 0, false), Tell,
                 State(NoCommand, 2, 1, true, AtRest, Idle, 2, 2, 1, false));
    EndsIsTrace(h, s);
    assert DiscardedAt(h, |h.steps| - 2, 2);
  }
}
