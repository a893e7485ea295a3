/**
 * How far a writer may be overtaken before the wrapping positions mislead it: the
 * bound under which `EventRing32` refines the unbounded ring cannot be raised by
 * one, for a ring of any size, and a plain history gets there.
 */
module RingReach {
  import opened BitOps
  import opened EventRing
  import opened RingRuns
  import opened EventRing32

  /** Writer 0 has loaded position 0 and nothing since; all else is at rest after `m` entries. */
  predicate Overtaken(s: Ring, m: nat) {
    && 0 in s.writers && s.writers[0].stage.Loaded? && s.writers[0].stage.pos == 0
    && 1 in s.writers && s.writers[1].stage == Idle
    && s.write == s.read == |s.delivered| == m && s.reader == Resting
  }

  /** A history in which nobody acts out of reach. */
  ghost predicate IsNear(h: History) {
    IsPlayed(h) && forall i :: 0 <= i < |h.actions| ==> InReach(h.states[i], h.actions[i])
  }

  /** Such a history on a ring of `n` slots ends in this state. */
  ghost predicate Comes(s: Ring, n: nat) {
    exists h :: IsNear(h) && |h.states[0].cells| == n && h.states[|h.states| - 1] == s
  }

  lemma FreshComes(s: Ring)
    requires IsFresh(s)
    ensures Comes(s, |s.cells|)
  {
    assert IsNear(History([s], []));
  }

  lemma ComesNext(s: Ring, n: nat, a: Action)
    requires Comes(s, n) && |s.cells| > 0 && Enabled(s, a) && InReach(s, a)
    ensures Comes(Apply(s, a), n)
  {
    hide Apply, Enabled, IsFresh, InReach;
    var h :| IsNear(h) && |h.states[0].cells| == n && h.states[|h.states| - 1] == s;
    var g := History(h.states + [Apply(s, a)], h.actions + [a]);
    forall k | 0 <= k < |g.actions| ensures Steps(g, k) && InReach(g.states[k], g.actions[k]) {
      assert k < |h.actions| ==> Steps(h, k) && InReach(h.states[k], h.actions[k]);
    }
    assert IsNear(g) && g.states[|g.states| - 1] == Apply(s, a);
  }

  lemma {:induction false} ComesIsValid(s: Ring, n: nat)
    requires Comes(s, n) && n >= 2
    ensures Inv(s) && |s.cells| == n
  {
    hide Inv, Steps, IsFresh, InReach;
    var h :| IsNear(h) && |h.states[0].cells| == n && h.states[|h.states| - 1] == s;
    AlwaysValid(h, |h.states| - 1);
    SizeStays(h, |h.states| - 1);
  }

  lemma {:induction false} SizeStays(h: History, k: nat)
    requires IsPlayed(h) && k < |h.states|
    ensures |h.states[k].cells| == |h.states[0].cells|
  {
    hide Apply, Enabled, IsFresh;
    if k > 0 {
      SizeStays(h, k - 1);
      assert Steps(h, k - 1);
      SameSize(h.states[k - 1], h.actions[k - 1]);
    }
  }

  /** At rest nothing waits in the ring. */
  lemma RestIsEmpty(s: Ring, m: nat)
    requires Inv(s) && Overtaken(s, m)
    ensures s.ready == {}
  {
    hide Place;
    assert forall p :: p in s.ready ==> Holding(s, p);
  }

  /** At rest the slot of the next position is free. */
  lemma NextIsFree(s: Ring, m: nat)
    requires Inv(s) && Overtaken(s, m)
    ensures |s.cells| >= 2 && s.cells[At(s, m)].seqNo == m && s.freed == m
  {
    hide Place;
    RestIsEmpty(s, m);
    assert CellIs(s, m);
    hide EntriesHold, WritersHold, ClaimsHold;
  }

  /** Writer 1 wins the next position. */
  lemma WinsNext(s: Ring, n: nat, m: nat, e: Entry) returns (c: Ring)
    requires Comes(s, n) && 2 <= n <= HALF_SPAN && Overtaken(s, m)
    ensures Comes(c, n) && |c.cells| > 0
    ensures c == s.(writers := s.writers[1 := Writer(s.writers[1].call + 1, Claimed(e, m))],
                    write := m + 1, claims := s.claims + [Claim(1, s.writers[1].call + 1, e)])
  {
    hide Place, Comes, Inv;
    ComesIsValid(s, n);
    NextIsFree(s, m);
    var call := s.writers[1].call + 1;
    var b := Apply(s, Begin(1, e));
    ComesNext(s, n, Begin(1, e));
    var l := Apply(b, LoadWrite(1));
    ComesNext(b, n, LoadWrite(1));
    assert l == s.(writers := s.writers[1 := Writer(call, Loaded(e, m))]);
    var q := Apply(l, LoadSeq(1));
    ComesNext(l, n, LoadSeq(1));
    assert q == s.(writers := s.writers[1 := Writer(call, Checked(e, m, m))]);
    c := Apply(q, Cas(1, false));
    ComesNext(q, n, Cas(1, false));
  }

  /** What filling and handing over leave alone. */
  predicate SameBesides(c: Ring, d: Ring) {
    && d.writers.Keys == c.writers.Keys
    && (forall id :: id in c.writers && id != 1 ==> d.writers[id] == c.writers[id])
    && d.write == c.write && d.read == c.read && d.reader == c.reader && d.delivered == c.delivered
  }

  /** Writer 1 fills the slot it won and hands it over. */
  lemma HandsOver(c: Ring, n: nat) returns (d: Ring)
    requires Comes(c, n) && |c.cells| > 0 && 1 in c.writers && c.writers[1].stage.Claimed?
    ensures Comes(d, n) && |d.cells| > 0 && SameBesides(c, d)
    ensures d.writers[1].stage == Idle && d.ready == c.ready + {c.writers[1].stage.pos}
  {
    hide Place, Comes;
    var w := Apply(c, WriteCode(1));
    ComesNext(c, n, WriteCode(1));
    var f := Apply(w, WriteArgs(1));
    ComesNext(w, n, WriteArgs(1));
    d := Apply(f, Publish(1));
    ComesNext(f, n, Publish(1));
  }

  /** The reader takes the entry that waits at its position. */
  lemma Takes(s: Ring, n: nat) returns (d: Ring)
    requires Comes(s, n) && n >= 2 && s.reader == Resting && s.read in s.ready
    ensures Comes(d, n) && d.reader == Resting && d.read == s.read + 1
    ensures |d.delivered| == |s.delivered| + 1 && d.writers == s.writers && d.write == s.write
  {
    hide Place, Comes, Inv;
    ComesIsValid(s, n);
    ReadyIsSeen(s);
    var l := Apply(s, Look);
    ComesNext(s, n, Look);
    var h := Apply(l, ReadCode);
    ComesNext(l, n, ReadCode);
    var c := Apply(h, ReadArgs);
    ComesNext(h, n, ReadArgs);
    var f := Apply(c, Free);
    ComesNext(c, n, Free);
    d := Apply(f, Advance);
    ComesNext(f, n, Advance);
  }

  lemma ReadyIsSeen(s: Ring)
    requires Inv(s) && s.reader == Resting && s.read in s.ready
    ensures |s.cells| > 0 && s.cells[At(s, s.read)].seqNo == s.read + 1
  {
    hide Place;
    assert CellIs(s, s.read);
  }

  /** One entry more goes through, and writer 0 has still not moved. */
  lemma Round(s: Ring, n: nat, m: nat, e: Entry) returns (d: Ring)
    requires Comes(s, n) && 2 <= n <= HALF_SPAN && Overtaken(s, m)
    ensures Comes(d, n) && Overtaken(d, m + 1)
  {
    hide Comes;
    var c := WinsNext(s, n, m, e);
    var p := HandsOver(c, n);
    d := Takes(p, n);
  }

  /** The ring as it is set up, with two writers. */
  function SetUp(n: nat): Ring
    requires n > 0
  {
    Ring(seq(n, i requires 0 <= i < n => Cell(i, 0, 0)), 0, 0, 0, Resting,
         map[0 := Writer(0, Idle), 1 := Writer(0, Idle)], [], [], {}, 0, 0, 0)
  }

  lemma {:induction false} Rounds(n: nat, m: nat, e: Entry) returns (s: Ring)
    requires 2 <= n <= HALF_SPAN
    ensures Comes(s, n) && Overtaken(s, m)
  {
    hide Comes;
    if m == 0 {
      var f := SetUp(n);
      assert IsFresh(f);
      FreshComes(f);
      var b := Apply(f, Begin(0, e));
      ComesNext(f, n, Begin(0, e));
      s := Apply(b, LoadWrite(0));
      ComesNext(b, n, LoadWrite(0));
    } else {
      var t := Rounds(n, m - 1, e);
      s := Round(t, n, m - 1, e);
    }
  }

  /** Half the span is a whole number of rounds. */
  lemma HalfSpanIsFirst(k: nat)
    requires k <= 30
    ensures Place(HALF_SPAN, Pow2(k)) == Place(0, Pow2(k))
  {
    UpHalfSpan();
    MaskedIgnoresHigh(0, 1, k, 31);
    MaskedIsPlace(HALF_SPAN, k);
    MaskedIsPlace(0, k);
  }

  lemma UpHalfSpan()
    ensures Up(1, 31) == HALF_SPAN
  {
    assert Up(1, 8) == 0x100;
    UpMore(1, 8);
    UpMore(1, 16);
    assert Up(1, 28) == 0x10 * Up(1, 24);
  }

  /** The sequence number that writer 0 finds is half the span ahead of its position. */
  lemma FindsHalfSpan(s: Ring, k: nat, m: nat)
    requires Inv(s) && 1 <= k <= 30 && |s.cells| == Pow2(k)
    requires Overtaken(s, m) && m == HALF_SPAN - Pow2(k) + 1
    ensures s.cells[At(s, 0)].seqNo == HALF_SPAN && s.freed == s.write
  {
    hide Place, Pow2;
    HalfSpanIsFirst(k);
    NextIsFree(s, m);
    RestIsEmpty(s, m);
    SlotsAreFew(k);
    TwoOrMore(k);
    assert CellIs(s, HALF_SPAN);
    hide EntriesHold, WritersHold, ClaimsHold;
  }

  /** The code drops an entry of a ring that is empty, where unbounded positions would look again. */
  predicate Misled(s: Ring) {
    && s.write == s.freed && |s.ready| == 0
    && Enabled(s, Reload(0)) && Enabled32(View(s), Drop(0))
  }

  lemma HalfSpanMisleads(s: Ring, n: nat, e: Entry) returns (d: Ring)
    requires Comes(s, n) && |s.cells| > 0 && 0 in s.writers && s.writers[0].stage == Loaded(e, 0)
    requires s.cells[At(s, 0)].seqNo == HALF_SPAN && s.write == s.freed && s.ready == {}
    ensures Comes(d, n) && Misled(d) && d.write == s.write
    ensures 0 in d.writers && d.writers[0].stage == Checked(e, 0, HALF_SPAN)
  {
    hide Place, Comes;
    d := Apply(s, LoadSeq(0));
    ComesNext(s, n, LoadSeq(0));
  }

  // ----- the same history as a schedule, on either ring -----

  /** A stretch of a history, from any state. */
  ghost predicate Chained(states: seq<Ring>, actions: seq<Action>) {
    && |states| == |actions| + 1
    && (forall i :: 0 <= i < |states| ==> |states[i].cells| > 0)
    && forall i :: 0 <= i < |actions| ==> ChainStep(states, actions, i)
  }

  ghost predicate ChainStep(states: seq<Ring>, actions: seq<Action>, i: nat)
    requires i < |actions| == |states| - 1 && forall j :: 0 <= j < |states| ==> |states[j].cells| > 0
  {
    Enabled(states[i], actions[i]) && states[i + 1] == Apply(states[i], actions[i])
  }

  lemma {:induction false} ChainIsRun(states: seq<Ring>, actions: seq<Action>)
    requires Chained(states, actions)
    ensures Run(states[0], actions) == states
    decreases |actions|
  {
    hide Apply, Enabled;
    if actions == [] {
      assert states == [states[0]];
    } else {
      assert ChainStep(states, actions, 0);
      forall i | 0 <= i < |actions[1..]| ensures ChainStep(states[1..], actions[1..], i) {
        assert ChainStep(states, actions, i + 1);
      }
      ChainIsRun(states[1..], actions[1..]);
      assert states == [states[0]] + states[1..];
    }
  }

  /** An action that is not possible where a schedule has got to ends it there. */
  lemma {:induction false} RunStops(s: Ring, schedule: seq<Action>, a: Action)
    requires |s.cells| > 0 && |Run(s, schedule)| == |schedule| + 1
    requires !Enabled(Run(s, schedule)[|schedule|], a)
    ensures Run(s, schedule + [a]) == Run(s, schedule)
    decreases |schedule|
  {
    hide Apply, Enabled;
    var more := schedule + [a];
    if schedule != [] {
      assert more[0] == schedule[0] && more[1..] == schedule[1..] + [a];
      SameSize(s, schedule[0]);
      var d := Apply(s, schedule[0]);
      assert Run(s, schedule) == [s] + Run(d, schedule[1..]);
      RunStops(d, schedule[1..], a);
    }
  }

  lemma SameSlots(t: Ring32, k: nat, a: Action)
    requires HasSlots(t, k) && Enabled32(t, a)
    ensures HasSlots(Apply32(t, k, a), k)
  {
    hide Masked;
  }

  /** One that is possible takes it one step further. */
  lemma {:induction false} Run32GoesOn(t: Ring32, k: nat, schedule: seq<Action>, a: Action)
    requires HasSlots(t, k) && |Run32(t, k, schedule)| == |schedule| + 1
    requires var last := Run32(t, k, schedule)[|schedule|]; HasSlots(last, k) && Enabled32(last, a)
    ensures var last := Run32(t, k, schedule)[|schedule|];
      Run32(t, k, schedule + [a]) == Run32(t, k, schedule) + [Apply32(last, k, a)]
    decreases |schedule|
  {
    hide Apply32, Enabled32, HasSlots;
    var more := schedule + [a];
    if schedule == [] {
      assert more[1..] == [];
    } else {
      assert more[0] == schedule[0] && more[1..] == schedule[1..] + [a];
      SameSlots(t, k, schedule[0]);
      var d := Apply32(t, k, schedule[0]);
      assert Run32(t, k, schedule) == [t] + Run32(d, k, schedule[1..]);
      Run32GoesOn(d, k, schedule[1..], a);
    }
  }

  /**
   * From the start `f` both rings can be played through the whole schedule, nobody
   * acting out of reach, up to the same state; there nothing is in the ring, writer 0
   * has been overtaken by `distance`, and its next step is to drop its entry, which
   * the ring with the code's positions does and the other does not.
   */
  ghost predicate Parts(f: Ring, k: nat, schedule: seq<Action>, distance: int) {
    && IsFresh(f) && |f.cells| == Pow2(k) && HasSlots(View(f), k)
    && var r, t, n := Run(f, schedule + [Drop(0)]), Run32(View(f), k, schedule + [Drop(0)]), |schedule|;
    && |r| == n + 1 && |t| == n + 2
    && (forall i :: 0 <= i <= n ==> t[i] == View(r[i]))
    && (forall i :: 0 <= i < n ==> InReach(r[i], schedule[i]))
    && var s := r[n];
    && 0 in s.writers && s.writers[0].stage.Checked? && s.write - s.writers[0].stage.pos == distance
    && s.write == s.freed && |s.ready| == 0
    && t[n + 1].dropped == s.dropped + 1 && !Enabled(s, Drop(0)) && Enabled(s, Reload(0))
  }

  lemma NearIsChained(h: History)
    requires IsNear(h) && |h.states[0].cells| >= 2
    ensures Chained(h.states, h.actions)
  {
    hide Apply, Enabled, IsFresh, InReach;
    forall i | 0 <= i < |h.states| ensures |h.states[i].cells| > 0 {
      SizeStays(h, i);
    }
    forall i | 0 <= i < |h.actions| ensures ChainStep(h.states, h.actions, i) {
      assert Steps(h, i);
    }
  }

  lemma NearRefines(h: History, k: nat)
    requires IsNear(h) && |h.states[0].cells| == Pow2(k) && 1 <= k <= 30
    ensures Inv(h.states[0]) && HasSlots(View(h.states[0]), k) && Run(h.states[0], h.actions) == h.states
    ensures var t := Run32(View(h.states[0]), k, h.actions);
      |t| == |h.states| && forall i :: 0 <= i < |t| ==> t[i] == View(h.states[i])
  {
    hide Inv, InReach, Pow2, Steps, Enabled, Apply;
    TwoOrMore(k);
    AlwaysValid(h, 0);
    NearIsChained(h);
    ChainIsRun(h.states, h.actions);
    hide Chained, IsFresh;
    RunRefines(h.states[0], k, h.actions);
  }

  lemma MisledParts(h: History, k: nat, distance: int)
    requires IsNear(h) && |h.states[0].cells| == Pow2(k) && 1 <= k <= 30
    requires var s := h.states[|h.states| - 1];
      && Misled(s) && 0 in s.writers && s.writers[0].stage.Checked? && s.write - s.writers[0].stage.pos == distance
    ensures Parts(h.states[0], k, h.actions, distance)
  {
    var f, n := h.states[0], |h.actions|;
    var s := h.states[n];
    hide IsFresh, Inv, InReach, Pow2, Steps, Signed, Wrap, View, HasSlots, Run, Run32;
    NearRefines(h, k);
    SizeStays(h, n);
    ViewHasSlots(s, k);
    hide Apply;
    RunStops(f, h.actions, Drop(0));
    Run32GoesOn(View(f), k, h.actions, Drop(0));
    DropCounts(s, k);
  }

  lemma ViewHasSlots(s: Ring, k: nat)
    requires |s.cells| == Pow2(k)
    ensures HasSlots(View(s), k)
  {
  }

  lemma DropCounts(s: Ring, k: nat)
    requires HasSlots(View(s), k) && Enabled32(View(s), Drop(0))
    ensures Apply32(View(s), k, Drop(0)).dropped == s.dropped + 1
  {
  }

  /**
   * For every size of the ring, one position further than the refinement allows is
   * too far: some schedule takes both rings, nobody acting out of reach, to where
   * writer 0 has been overtaken by exactly 2^31 - N + 1, and there they part, the
   * ring of 32-bit positions dropping an entry although nothing is in it.
   */
  lemma {:induction false} OneFurtherIsTooFar(k: nat)
    requires 1 <= k <= 30
    ensures var distance := HALF_SPAN - Pow2(k) + 1;
      exists f, schedule :: Parts(f, k, schedule, distance)
  {
    hide Pow2, Comes, Inv, Misled, Place, Parts;
    SlotsAreFew(k);
    TwoOrMore(k);
    var n, e := Pow2(k), Entry(0, 0);
    var s := Rounds(n, HALF_SPAN - n + 1, e);
    ComesIsValid(s, n);
    FindsHalfSpan(s, k, s.write);
    RestIsEmpty(s, s.write);
    var d := HalfSpanMisleads(s, n, s.writers[0].stage.entry);
    var h := HistoryOf(d, n);
    MisledParts(h, k, HALF_SPAN - n + 1);
  }

  lemma HistoryOf(s: Ring, n: nat) returns (h: History)
    requires Comes(s, n)
    ensures IsNear(h) && |h.states[0].cells| == n && h.states[|h.states| - 1] == s
  {
    h :| IsNear(h) && |h.states[0].cells| == n && h.states[|h.states| - 1] == s;
  }

  lemma TwoOrMore(k: nat)
    requires k >= 1
    ensures Pow2(k) >= 2
  {
  }
}
