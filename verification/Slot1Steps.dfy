/**
 * The command slot of the older bus between its two tasks, one step per atomic
 * operation: every access is a plain load or store, and what the bus has looked
 * at it clears without looking again.
 */
module Slot1Steps {
  import opened HcpTypes

  datatype Caller =
    | AtRest
    | Asked(cmd: Command, id: nat, at: nat)
    | Stamped(cmd: Command, id: nat)

  datatype Poller =
    | Idle
    // the slot was read; what it held, and in which call that was stored
    | Found(cmd: Command, id: nat)
    | Telling(cmd: Command, id: nat)
    | Clearing(id: nat)

  /** `pendingId`, `accepted` and `sent` are history, as on the newer bus. */
  datatype State = State(
    pending: Command,
    pendingId: nat,
    pendingAt: nat,
    caller: Caller,
    poller: Poller,
    calls: nat,
    accepted: nat,
    sent: nat)

  const START := State(NoCommand, 0, 0, AtRest, Idle, 0, 0, 0)

  datatype Step =
    | Call(cmd: Command, at: nat)
    | Stamp
    | Store
    | DropPending
    | Load
    // stale, or a stop for a standing door, leaves nothing to tell
    | Judge(stale: bool, moving: bool)
    | Tell
    | Clear

  predicate Enabled(s: State, t: Step) {
    match t
    case Call(cmd, _) => s.caller == AtRest && cmd != NoCommand
    case Stamp => s.caller.Asked?
    case Store => s.caller.Stamped?
    case DropPending => s.caller == AtRest
    case Load => s.poller == Idle && s.pending != NoCommand
    case Judge(_, _) => s.poller.Found?
    case Tell => s.poller.Telling?
    case Clear => s.poller.Clearing?
  }

  /** What a command found in the slot comes to now. */
  function Meant(cmd: Command, stale: bool, moving: bool): Command {
    if stale then NoCommand
    else if cmd == Stop then (if moving then Impulse else NoCommand)
    else cmd
  }

  function Apply(s: State, t: Step): State
    requires Enabled(s, t)
  {
    match t
    case Call(cmd, at) => s.(caller := Asked(cmd, s.calls + 1, at), calls := s.calls + 1)
    case Stamp => s.(pendingAt := s.caller.at, caller := Stamped(s.caller.cmd, s.caller.id))
    case Store => s.(pending := s.caller.cmd, pendingId := s.caller.id, accepted := s.accepted + 1, caller := AtRest)
    case DropPending => s.(pending := NoCommand)
    case Load => s.(poller := Found(s.pending, s.pendingId))
    case Judge(stale, moving) =>
      var out := Meant(s.poller.cmd, stale, moving);
      s.(poller := if out == NoCommand then Clearing(s.poller.id) else Telling(out, s.poller.id))
    case Tell => s.(poller := Clearing(s.poller.id), sent := s.sent + 1)
    case Clear => s.(pending := NoCommand, poller := Idle)
  }

  predicate InSlot(s: State, id: nat) {
    s.pending != NoCommand && s.pendingId == id
  }

  /** The slot holds a command that the bus has not told yet. */
  predicate HoldsUntold(s: State) {
    s.pending != NoCommand && !(s.poller.Clearing? && s.poller.id == s.pendingId)
  }

  predicate Apart(s: State) {
    (s.poller.Found? || s.poller.Telling?) && !InSlot(s, s.poller.id)
  }

  predicate Inv(s: State) {
    && s.sent + (if HoldsUntold(s) then 1 else 0) + (if Apart(s) then 1 else 0) <= s.accepted
    && s.pendingId <= s.calls
    && (s.poller != Idle ==> s.poller.id <= s.calls)
    && (s.caller != AtRest ==>
          s.caller.id <= s.calls && s.caller.id != s.pendingId && (s.poller != Idle ==> s.caller.id != s.poller.id)
          && s.caller.cmd != NoCommand)
  }

  lemma StepKeeps(s: State, t: Step)
    requires Inv(s) && Enabled(s, t)
    ensures Inv(Apply(s, t))
  {
  }

  datatype Trace = Trace(states: seq<State>, steps: seq<Step>)

  ghost predicate IsTrace(h: Trace) {
    && |h.states| == |h.steps| + 1
    && h.states[0] == START
    && forall k :: 0 <= k < |h.steps| ==> Steps(h, k)
  }

  ghost predicate Steps(h: Trace, k: nat)
    requires k < |h.steps| == |h.states| - 1
  {
    Enabled(h.states[k], h.steps[k]) && h.states[k + 1] == Apply(h.states[k], h.steps[k])
  }

  /** In every interleaving, no more commands are sent than calls were accepted. */
  lemma {:induction false} SentWasAccepted(h: Trace, k: nat)
    requires IsTrace(h) && k < |h.states|
    ensures Inv(h.states[k]) && h.states[k].sent <= h.states[k].accepted
  {
    if k > 0 {
      SentWasAccepted(h, k - 1);
      assert Steps(h, k - 1);
      StepKeeps(h.states[k - 1], h.steps[k - 1]);
      hide Apply, Enabled;
    }
  }

  // ----- what becomes of each call -----

  /** A call is stored, waits, is taken in hand, and ends told, found to mean nothing, or discarded unseen. */
  datatype Fate = Unstored | Waiting | InHand | Told | Void | Discarded

  /** The bus is at this call's command, in whatever part of the answer. */
  predicate AtCall(p: Poller, id: nat) {
    p != Idle && p.id == id
  }

  predicate Stores(s: State, t: Step, id: nat) {
    t.Store? && s.caller.Stamped? && s.caller.id == id
  }

  predicate Tells(s: State, t: Step, id: nat) {
    t.Tell? && AtCall(s.poller, id)
  }

  /** The command turns out to be stale, or to mean nothing. */
  predicate Voids(s: State, t: Step, id: nat) {
    t.Judge? && s.poller.Found? && s.poller.id == id && Meant(s.poller.cmd, t.stale, t.moving) == NoCommand
  }

  /** The slot loses this call's command while the bus is not at it: cleared with another's, dropped or overwritten. */
  predicate Discards(s: State, t: Step, id: nat) {
    InSlot(s, id) && !AtCall(s.poller, id) && (t.Clear? || t.DropPending? || t.Store?)
  }

  function NextFate(s: State, t: Step, id: nat, f: Fate): Fate {
    match f
    case Unstored => if Stores(s, t, id) then Waiting else f
    case Waiting => if t.Load? then InHand else if Discards(s, t, id) then Discarded else f
    case InHand => if Tells(s, t, id) then Told else if Voids(s, t, id) then Void else f
    case _ => f
  }

  /** What a fate means for the slot and the two tasks. */
  predicate IsFate(s: State, id: nat, f: Fate) {
    && (f != Unstored ==> id <= s.calls && !(s.caller != AtRest && s.caller.id == id))
    && match f
       case Unstored => s.pendingId != id && !AtCall(s.poller, id)
       case Waiting => InSlot(s, id) && !AtCall(s.poller, id)
       case InHand => AtCall(s.poller, id) && !s.poller.Clearing?
       case Discarded => !InSlot(s, id) && !AtCall(s.poller, id)
       case _ => (AtCall(s.poller, id) ==> s.poller.Clearing?) && (InSlot(s, id) ==> AtCall(s.poller, id))
  }

  lemma FateStep(s: State, t: Step, id: nat, f: Fate)
    requires Inv(s) && Enabled(s, t) && IsFate(s, id, f)
    ensures IsFate(Apply(s, t), id, NextFate(s, t, id, f))
  {
  }

  /** Each fate comes from the step it is named after. */
  lemma FateFromStep(s: State, t: Step, id: nat, f: Fate)
    requires Inv(s) && Enabled(s, t) && IsFate(s, id, f)
    ensures var g := NextFate(s, t, id, f);
      && (g != Unstored <==> f != Unstored || Stores(s, t, id))
      && (g == Told <==> f == Told || Tells(s, t, id))
      && (g == Void <==> f == Void || Voids(s, t, id))
      && (g == Discarded <==> f == Discarded || Discards(s, t, id))
    ensures Tells(s, t, id) ==> f == InHand
  {
  }

  ghost function FateAt(h: Trace, k: nat, id: nat): Fate
    requires IsTrace(h) && k < |h.states|
  {
    if k == 0 then Unstored else NextFate(h.states[k - 1], h.steps[k - 1], id, FateAt(h, k - 1, id))
  }

  lemma {:induction false} FateHolds(h: Trace, k: nat, id: nat)
    requires IsTrace(h) && k < |h.states| && id > 0
    ensures IsFate(h.states[k], id, FateAt(h, k, id))
  {
    if k > 0 {
      FateHolds(h, k - 1, id);
      SentWasAccepted(h, k - 1);
      assert Steps(h, k - 1);
      FateStep(h.states[k - 1], h.steps[k - 1], id, FateAt(h, k - 1, id));
      hide Apply, Enabled, Inv, IsFate, NextFate;
    }
  }

  /** One step of a trace, seen from a call. */
  ghost predicate StoredAt(h: Trace, j: nat, id: nat)
    requires IsTrace(h) && j < |h.steps|
  {
    Stores(h.states[j], h.steps[j], id)
  }

  ghost predicate ToldAt(h: Trace, j: nat, id: nat)
    requires IsTrace(h) && j < |h.steps|
  {
    Tells(h.states[j], h.steps[j], id)
  }

  ghost predicate VoidAt(h: Trace, j: nat, id: nat)
    requires IsTrace(h) && j < |h.steps|
  {
    Voids(h.states[j], h.steps[j], id)
  }

  ghost predicate DiscardedAt(h: Trace, j: nat, id: nat)
    requires IsTrace(h) && j < |h.steps|
  {
    Discards(h.states[j], h.steps[j], id)
  }

  /** A fate is reached by the step it is named after, and by no other. */
  lemma {:induction false} FateIff(h: Trace, k: nat, id: nat)
    requires IsTrace(h) && k < |h.states| && id > 0
    ensures FateAt(h, k, id) != Unstored <==> exists j :: 0 <= j < k && StoredAt(h, j, id)
    ensures FateAt(h, k, id) == Told <==> exists j :: 0 <= j < k && ToldAt(h, j, id)
    ensures FateAt(h, k, id) == Void <==> exists j :: 0 <= j < k && VoidAt(h, j, id)
    ensures FateAt(h, k, id) == Discarded <==> exists j :: 0 <= j < k && DiscardedAt(h, j, id)
  {
    if k > 0 {
      FateIff(h, k - 1, id);
      FateHolds(h, k - 1, id);
      SentWasAccepted(h, k - 1);
      assert Steps(h, k - 1);
      FateFromStep(h.states[k - 1], h.steps[k - 1], id, FateAt(h, k - 1, id));
      StepOf(h, k - 1, id);
      hide Apply, Enabled, Inv, IsFate, Tells, Voids, Discards, Stores, NextFate;
      hide IsTrace, StoredAt, ToldAt, VoidAt, DiscardedAt;
    }
  }

  lemma StepOf(h: Trace, j: nat, id: nat)
    requires IsTrace(h) && j < |h.steps|
    ensures StoredAt(h, j, id) == Stores(h.states[j], h.steps[j], id)
    ensures ToldAt(h, j, id) == Tells(h.states[j], h.steps[j], id)
    ensures VoidAt(h, j, id) == Voids(h.states[j], h.steps[j], id)
    ensures DiscardedAt(h, j, id) == Discards(h.states[j], h.steps[j], id)
  {
  }

  /** No call is ever told twice. */
  lemma {:induction false} ToldAtMostOnce(h: Trace, i: nat, j: nat, id: nat)
    requires IsTrace(h) && i < j < |h.steps| && id > 0 && ToldAt(h, i, id)
    ensures !ToldAt(h, j, id)
  {
    FateIff(h, j, id);
    FateHolds(h, j, id);
    SentWasAccepted(h, j);
    assert Steps(h, j);
    FateFromStep(h.states[j], h.steps[j], id, FateAt(h, j, id));
    StepOf(h, j, id);
    hide Apply, Enabled, Inv, IsFate, Tells, Voids, Discards, Stores, IsTrace;
  }

  /**
   * When the bus is between answers, a call that was accepted has not been told
   * exactly where it still waits in the slot, was found stale or to mean nothing,
   * or was discarded: dropped, overwritten, or cleared with another call's.
   */
  lemma {:induction false} UntoldIff(h: Trace, k: nat, id: nat)
    requires IsTrace(h) && k < |h.states| && id > 0 && h.states[k].poller == Idle
    requires exists j :: 0 <= j < k && StoredAt(h, j, id)
    ensures (forall j :: 0 <= j < k ==> !ToldAt(h, j, id)) <==>
      || InSlot(h.states[k], id)
      || (exists j :: 0 <= j < k && VoidAt(h, j, id))
      || (exists j :: 0 <= j < k && DiscardedAt(h, j, id))
  {
    FateIff(h, k, id);
    FateHolds(h, k, id);
    hide IsTrace, StoredAt, ToldAt, VoidAt, DiscardedAt, FateAt;
  }

  // ----- what can be told when a call is stored -----

  /** From step `j` to step `e`, both left out, the slot is neither cleared nor written. */
  ghost predicate Untouched(h: Trace, j: nat, e: nat)
    requires IsTrace(h) && j <= e <= |h.steps|
  {
    forall m :: j < m < e ==> !h.steps[m].Clear? && !h.steps[m].Store? && !h.steps[m].DropPending?
  }

  /** A step that leaves the slot alone and finds this call waiting in it. */
  lemma LeftWaiting(s: State, t: Step, id: nat)
    requires Enabled(s, t) && InSlot(s, id) && !t.Clear? && !t.Store? && !t.DropPending?
    requires s.poller == Idle || s.poller.id != id
    ensures var d := Apply(s, t);
      && InSlot(d, id)
      && (s.poller == Idle ==> d.poller == Idle || AtCall(d.poller, id))
      && (s.poller != Idle ==> d.poller != Idle && d.poller.id == s.poller.id)
  {
  }

  /** Once the bus is at a call it stays there until it clears the slot. */
  lemma StaysAtCall(s: State, t: Step, id: nat)
    requires Enabled(s, t) && AtCall(s.poller, id) && !t.Clear?
    ensures AtCall(Apply(s, t).poller, id)
  {
  }

  lemma {:induction false} WaitsFrom(h: Trace, j: nat, e: nat, id: nat)
    requires IsTrace(h) && j < e < |h.steps| && StoredAt(h, j, id) && id > 0 && Untouched(h, j, e)
    ensures var p, s := h.states[j].poller, h.states[e];
      if p != Idle then InSlot(s, id) && s.poller != Idle && !AtCall(s.poller, id)
      else AtCall(s.poller, id) || (InSlot(s, id) && s.poller == Idle)
  {
    SentWasAccepted(h, j);
    assert Steps(h, j) && Steps(h, e - 1);
    if e > j + 1 {
      hide Apply, Enabled, InSlot, AtCall, Inv;
      WaitsFrom(h, j, e - 1, id);
      var s, t := h.states[e - 1], h.steps[e - 1];
      if AtCall(s.poller, id) {
        StaysAtCall(s, t, id);
      } else {
        NotAtCall(s.poller, id);
        LeftWaiting(s, t, id);
        NotAtCall(h.states[e].poller, id);
        NotAtCall(h.states[j].poller, id);
      }
    }
  }

  lemma NotAtCall(p: Poller, id: nat)
    ensures !AtCall(p, id) <==> p == Idle || p.id != id
  {
  }

  /**
   * Whether an accepted press will be thrown away with the answer that is being
   * built can be told when it is stored: the first clearing after it discards it if
   * and only if the bus was in the middle of an answer then.
   */
  lemma {:induction false} ClearedUntoldIff(h: Trace, j: nat, e: nat, id: nat)
    requires IsTrace(h) && j < e < |h.steps| && id > 0
    requires StoredAt(h, j, id) && h.steps[e].Clear? && Untouched(h, j, e)
    ensures DiscardedAt(h, e, id) <==> h.states[j].poller != Idle
  {
    WaitsFrom(h, j, e, id);
    assert Steps(h, e);
    hide IsTrace, Untouched;
  }

  // ----- a press that is lost -----

  ghost predicate Ends(h: Trace, s: State) {
    IsTrace(h) && h.states[|h.states| - 1] == s
  }

  lemma OneMore(h: Trace, s: State, t: Step, d: State) returns (g: Trace)
    requires Ends(h, s) && Enabled(s, t) && d == Apply(s, t)
    ensures Ends(g, d) && |g.steps| == |h.steps| + 1
    ensures g.states[|h.steps|] == s && g.steps[|h.steps|] == t
  {
    g := Trace(h.states + [d], h.steps + [t]);
    forall k | 0 <= k < |g.steps| ensures Steps(g, k) {
      assert k < |h.steps| ==> Steps(h, k);
    }
    hide Apply, Enabled;
  }

  /** An open has just been told when a close comes in. */
  lemma ToldAndAsked() returns (h: Trace)
    ensures Ends(h, State(Open, 1, 0, Asked(Close, 2, 1), Clearing(1), 2, 1, 1))
  {
    hide Ends;
    h := Trace([START], []);
    assert Ends(h, START) by {
      StartIsTrace();
    }
    h := OneMore(h, START, Call(Open, 0), State(NoCommand, 0, 0, Asked(Open, 1, 0), Idle, 1, 0, 0));
    h := OneMore(h, State(NoCommand, 0, 0, Asked(Open, 1, 0), Idle, 1, 0, 0), Stamp,
                 State(NoCommand, 0, 0, Stamped(Open, 1), Idle, 1, 0, 0));
    h := OneMore(h, State(NoCommand, 0, 0, Stamped(Open, 1), Idle, 1, 0, 0), Store,
                 State(Open, 1, 0, AtRest, Idle, 1, 1, 0));
    h := OneMore(h, State(Open, 1, 0, AtRest, Idle, 1, 1, 0), Load, State(Open, 1, 0, AtRest, Found(Open, 1), 1, 1, 0));
    h := OneMore(h, State(Open, 1, 0, AtRest, Found(Open, 1), 1, 1, 0), Judge(false, false),
                 State(Open, 1, 0, AtRest, Telling(Open, 1), 1, 1, 0));
    h := OneMore(h, State(Open, 1, 0, AtRest, Telling(Open, 1), 1, 1, 0), Tell,
                 State(Open, 1, 0, AtRest, Clearing(1), 1, 1, 1));
    h := OneMore(h, State(Open, 1, 0, AtRest, Clearing(1), 1, 1, 1), Call(Close, 1),
                 State(Open, 1, 0, Asked(Close, 2, 1), Clearing(1), 2, 1, 1));
  }

  lemma StartIsTrace()
    ensures Ends(Trace([START], []), START)
  {
  }

  /**
   * An accepted press can be lost: everybody is at rest, the slot is empty, two
   * presses were accepted and one was told, because the last step cleared the other.
   */
  lemma APressCanBeLost()
    ensures exists h, s ::
      && Ends(h, s) && |h.steps| > 0 && DiscardedAt(h, |h.steps| - 1, s.pendingId) && h.steps[|h.steps| - 1] == Clear
      && s.caller == AtRest && s.poller == Idle && s.pending == NoCommand && s.accepted == 2 && s.sent == 1
  {
    hide Ends;
    var h := ToldAndAsked();
    h := OneMore(h, State(Open, 1, 0, Asked(Close, 2, 1), Clearing(1), 2, 1, 1), Stamp,
                 State(Open, 1, 1, Stamped(Close, 2), Clearing(1), 2, 1, 1));
    h := OneMore(h, State(Open, 1, 1, Stamped(Close, 2), Clearing(1), 2, 1, 1), Store,
                 State(Close, 2, 1, AtRest, Clearing(1), 2, 2, 1));
    var was, s := State(Close, 2, 1, AtRest, Clearing(1), 2, 2, 1), State(NoCommand, 2, 1, AtRest, Idle, 2, 2, 1);
    h := OneMore(h, was, Clear, s);
    EndsIsTrace(h, s);
    assert DiscardedAt(h, |h.steps| - 1, 2);
  }

  lemma EndsIsTrace(h: Trace, s: State)
    requires Ends(h, s)
    ensures IsTrace(h)
  {
  }
}
