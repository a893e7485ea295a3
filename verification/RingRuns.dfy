/** What the event ring guarantees over every interleaving of its tasks. */
module RingRuns {
  import opened EventRing

  datatype History = History(states: seq<Ring>, actions: seq<Action>)

  /** Any interleaving, on a ring of any size. */
  ghost predicate IsPlayed(h: History) {
    && |h.states| == |h.actions| + 1
    && IsFresh(h.states[0])
    && forall k :: 0 <= k < |h.actions| ==> Steps(h, k)
  }

  /** Any interleaving, on a ring of two slots or more. */
  ghost predicate IsHistory(h: History) {
    IsPlayed(h) && |h.states[0].cells| >= 2
  }

  ghost predicate Steps(h: History, k: nat)
    requires k < |h.actions| == |h.states| - 1
  {
    && |h.states[k].cells| > 0 && Enabled(h.states[k], h.actions[k])
    && h.states[k + 1] == Apply(h.states[k], h.actions[k])
  }

  lemma {:induction false} AlwaysValid(h: History, k: nat)
    requires IsHistory(h) && k < |h.states|
    ensures Inv(h.states[k])
  {
    hide Inv, Apply, Enabled, IsNew;
    if k == 0 {
      NewIsValid(h.states[0]);
    } else {
      AlwaysValid(h, k - 1);
      assert Steps(h, k - 1);
      ActionKeeps(h.states[k - 1], h.actions[k - 1]);
    }
  }

  // ----- what is delivered -----

  /** This push was begun before step `k`, as this writer's `call`th. */
  ghost predicate PushedAs(h: History, k: nat, c: Claim)
    requires IsHistory(h) && k < |h.states|
  {
    exists j: nat :: j < k && BeginsAt(h, j, c)
  }

  ghost predicate BeginsAt(h: History, j: nat, c: Claim)
    requires IsHistory(h) && j < |h.actions|
  {
    && h.actions[j] == Begin(c.who, c.entry)
    && c.who in h.states[j + 1].writers && h.states[j + 1].writers[c.who].call == c.call
  }

  /** The push a writer has in hand. */
  function InHand(who: nat, w: Writer): Claim
    requires !w.stage.Idle?
  {
    Claim(who, w.call, w.stage.entry)
  }

  /** What one step can do to what a writer has in hand, and to the claims. */
  lemma StepHands(s: Ring, a: Action)
    requires |s.cells| > 0 && Enabled(s, a)
    ensures var d := Apply(s, a);
      && d.writers.Keys == s.writers.Keys
      && (forall id :: id in d.writers && !d.writers[id].stage.Idle? ==>
            if a.Begin? && a.who == id then InHand(id, d.writers[id]).entry == a.entry
            else !s.writers[id].stage.Idle? && InHand(id, d.writers[id]) == InHand(id, s.writers[id]))
      && (d.claims == s.claims
          || (OfWriter(a) && a.who in s.writers && !s.writers[a.who].stage.Idle?
              && d.claims == s.claims + [InHand(a.who, s.writers[a.who])]))
  {
    hide Place;
  }

  lemma PushedEarlier(h: History, j: nat, k: nat, c: Claim)
    requires IsHistory(h) && j <= k < |h.states| && PushedAs(h, j, c)
    ensures PushedAs(h, k, c)
  {
    hide IsHistory, BeginsAt;
  }

  ghost predicate AllPushed(h: History, k: nat)
    requires IsHistory(h) && k < |h.states|
  {
    var s := h.states[k];
    && (forall id :: id in s.writers && !s.writers[id].stage.Idle? ==> PushedAs(h, k, InHand(id, s.writers[id])))
    && forall i :: 0 <= i < |s.claims| ==> PushedAs(h, k, s.claims[i])
  }

  lemma {:induction false} EveryClaimWasPushed(h: History, k: nat)
    requires IsHistory(h) && k < |h.states|
    ensures AllPushed(h, k)
  {
    hide Apply, Enabled, PushedAs;
    if k > 0 {
      EveryClaimWasPushed(h, k - 1);
      assert Steps(h, k - 1);
      var s, d, a := h.states[k - 1], h.states[k], h.actions[k - 1];
      StepHands(s, a);
      forall id | id in d.writers && !d.writers[id].stage.Idle? ensures PushedAs(h, k, InHand(id, d.writers[id])) {
        if a.Begin? && a.who == id {
          BegunNow(h, k - 1, InHand(id, d.writers[id]));
        } else {
          PushedEarlier(h, k - 1, k, InHand(id, d.writers[id]));
        }
      }
      forall i | 0 <= i < |d.claims| ensures PushedAs(h, k, d.claims[i]) {
        if i < |s.claims| {
          assert PushedAs(h, k - 1, s.claims[i]);
        }
        PushedEarlier(h, k - 1, k, d.claims[i]);
      }
    }
  }

  lemma BegunNow(h: History, j: nat, c: Claim)
    requires IsHistory(h) && j < |h.actions| && BeginsAt(h, j, c)
    ensures PushedAs(h, j + 1, c)
  {
  }

  /**
   * In every interleaving, what was delivered is a prefix of the claims in the
   * order in which they were won; each claim is one whole entry that its writer
   * pushed, and a writer's own claims stand in the order of its pushes.
   */
  lemma {:induction false} DeliveredInOrder(h: History, k: nat)
    requires IsHistory(h) && k < |h.states|
    ensures var s := h.states[k];
      && |s.delivered| <= |s.claims| == s.write
      && (forall i :: 0 <= i < |s.delivered| ==> s.delivered[i] == s.claims[i].entry)
      && (forall i :: 0 <= i < |s.claims| ==> PushedAs(h, k, s.claims[i]))
      && (forall i, j :: 0 <= i < j < |s.claims| && s.claims[i].who == s.claims[j].who ==>
            s.claims[i].call < s.claims[j].call)
  {
    AlwaysValid(h, k);
    EveryClaimWasPushed(h, k);
    hide PushedAs, CellsHold, WritersHold;
  }

  // ----- who touches a slot -----

  /** The slot whose entry this writer may be writing. */
  predicate Writing(s: Ring, id: nat, slot: nat)
    requires |s.cells| > 0
  {
    id in s.writers && s.writers[id].stage.Holds() && At(s, s.writers[id].stage.pos) == slot
  }

  predicate Reading(s: Ring, slot: nat)
    requires |s.cells| > 0
  {
    (s.reader.Ready? || s.reader.HalfRead?) && At(s, s.read) == slot
  }

  /** No slot's entry is ever accessed by two parties at once. */
  lemma {:induction false} SlotsAreExclusive(h: History, k: nat, slot: nat)
    requires IsHistory(h) && k < |h.states|
    ensures |h.states[k].cells| > 0
    ensures forall a, b :: Writing(h.states[k], a, slot) && Writing(h.states[k], b, slot) ==> a == b
    ensures forall a :: Writing(h.states[k], a, slot) ==> !Reading(h.states[k], slot)
  {
    var s := h.states[k];
    AlwaysValid(h, k);
    HasCells(s);
    hide IsHistory, Inv;
    forall a, b | Writing(s, a, slot) && Writing(s, b, slot) ensures a == b {
      OwnsAlone(s, a, s.writers[a].stage.pos);
    }
    forall a | Writing(s, a, slot) ensures !Reading(s, slot) {
      if s.reader.Ready? || s.reader.HalfRead? {
        ReaderApart(s, a);
      }
    }
  }

  lemma ReaderApart(s: Ring, a: nat)
    requires Inv(s) && a in s.writers && s.writers[a].stage.Holds()
    requires s.reader.Ready? || s.reader.HalfRead?
    ensures At(s, s.writers[a].stage.pos) != At(s, s.read)
  {
    OwnsAlone(s, a, s.writers[a].stage.pos);
    assert WriterHolds(s, a, s.writers[a]);
    hide Place, CellsHold, EntriesHold, ClaimsHold;
  }

  // ----- what is lost -----

  /** A push finds no room exactly when as many entries are claimed and not given back as the ring holds. */
  lemma {:induction false} DropsOnlyWhenFull(h: History, k: nat)
    requires IsHistory(h) && k < |h.actions| && h.actions[k].LoadSeq?
    ensures var s, d, who := h.states[k], h.states[k + 1], h.actions[k].who;
      && who in s.writers && s.writers[who].stage.Loaded? && who in d.writers && d.writers[who].stage.Checked?
      && (d.writers[who].stage.seqNo < d.writers[who].stage.pos
          <==> s.writers[who].stage.pos == s.write && s.write - s.freed == |s.cells|)
  {
    AlwaysValid(h, k);
    assert Steps(h, k);
    var s, who := h.states[k], h.actions[k].who;
    assert WriterHolds(s, who, s.writers[who]);
    SequenceIsNear(s, s.writers[who].stage.pos);
    hide IsHistory, Place, CellsHold, EntriesHold, ClaimsHold;
  }

  /** The positions whose entry lies whole in its slot, handed over and not taken. */
  function InRing(s: Ring): set<nat>
    requires |s.cells| > 0
  {
    set p: nat | |s.delivered| <= p < |s.claims| && s.cells[At(s, p)].seqNo == p + 1
  }

  /** Every push that returned was delivered, lies in the ring as it was pushed, or was counted as dropped. */
  ghost predicate Accounts(s: Ring)
    requires |s.cells| > 0
  {
    && s.returned == |s.delivered| + |InRing(s)| + s.dropped + s.taken
    && forall p :: p in InRing(s) ==>
         Entry(s.cells[At(s, p)].code, s.cells[At(s, p)].args) == s.claims[p].entry
  }

  /** What the history calls ready is what the slots show. */
  lemma ReadyIsInRing(s: Ring)
    requires Inv(s)
    ensures |s.cells| > 0 && s.ready == InRing(s)
  {
    hide Place;
    forall p: nat ensures p in s.ready <==> p in InRing(s) {
      if p in s.ready {
        assert Holding(s, p);
      }
      if |s.delivered| <= p < |s.claims| {
        assert CellIs(s, p);
      }
    }
  }

  lemma ValidAccounts(s: Ring)
    requires Inv(s)
    ensures |s.cells| > 0 && Accounts(s)
  {
    hide Place;
    ReadyIsInRing(s);
    forall p | p in InRing(s) ensures Entry(s.cells[At(s, p)].code, s.cells[At(s, p)].args) == s.claims[p].entry {
      assert Holding(s, p);
    }
    hide CellsHold, WritersHold, ClaimsHold;
  }

  /** In every interleaving on two slots or more, no push goes missing. */
  lemma {:induction false} NothingIsUnaccounted(h: History, k: nat)
    requires IsHistory(h) && k < |h.states|
    ensures |h.states[k].cells| > 0 && Accounts(h.states[k])
  {
    AlwaysValid(h, k);
    ValidAccounts(h.states[k]);
    hide Accounts, Inv, IsHistory;
  }

  // ----- what can be reached -----

  /** Some interleaving on a ring of `n` slots ends in this state. */
  ghost predicate Reached(s: Ring, n: nat) {
    exists h :: IsPlayed(h) && |h.states[0].cells| == n && h.states[|h.states| - 1] == s
  }

  lemma FreshIsReached(s: Ring)
    requires IsFresh(s)
    ensures Reached(s, |s.cells|)
  {
    assert IsPlayed(History([s], []));
  }

  lemma ReachedNext(s: Ring, n: nat, a: Action)
    requires Reached(s, n) && |s.cells| > 0 && Enabled(s, a)
    ensures Reached(Apply(s, a), n)
  {
    hide Apply, Enabled, IsFresh;
    var h :| IsPlayed(h) && |h.states[0].cells| == n && h.states[|h.states| - 1] == s;
    var g := History(h.states + [Apply(s, a)], h.actions + [a]);
    forall k | 0 <= k < |g.actions| ensures Steps(g, k) {
      assert k < |h.actions| ==> Steps(h, k);
    }
    assert IsPlayed(g) && g.states[|g.states| - 1] == Apply(s, a);
  }

  // ----- a ring of one slot -----

  /** One slot, nobody pushing, and the slot ready for the next position. */
  predicate Alone(s: Ring) {
    |s.cells| == 1 && 0 in s.writers && s.writers[0].stage == Idle && s.cells[0].seqNo == s.write
  }

  function WonAlone(s: Ring, e: Entry): Ring
    requires Alone(s)
  {
    Apply(Apply(Apply(Apply(s, Begin(0, e)), LoadWrite(0)), LoadSeq(0)), Cas(0, false))
  }

  lemma Won(s: Ring, e: Entry)
    requires Alone(s)
    ensures WonAlone(s, e) == s.(
      writers := s.writers[0 := Writer(s.writers[0].call + 1, Claimed(e, s.write))],
      write := s.write + 1, claims := s.claims + [Claim(0, s.writers[0].call + 1, e)])
  {
    hide Place;
    var call := s.writers[0].call + 1;
    var l := Apply(Apply(s, Begin(0, e)), LoadWrite(0));
    assert l == s.(writers := s.writers[0 := Writer(call, Loaded(e, s.write))]);
    var q := Apply(l, LoadSeq(0));
    assert q == s.(writers := s.writers[0 := Writer(call, Checked(e, s.write, s.write))]);
  }

  /** The actions of one push, with nobody else about. */
  function Pushed(s: Ring, e: Entry): Ring
    requires Alone(s)
  {
    Won(s, e);
    Apply(Apply(Apply(WonAlone(s, e), WriteCode(0)), WriteArgs(0)), Publish(0))
  }

  lemma PushedAlone(s: Ring, e: Entry)
    requires Alone(s)
    ensures var d := Pushed(s, e);
      && Alone(d) && d.write == s.write + 1 && d.reader == s.reader && d.read == s.read
      && d.delivered == s.delivered && d.dropped == s.dropped && d.taken == s.taken
      && d.returned == s.returned + 1
  {
    hide Place, WonAlone;
    Won(s, e);
    var c := WonAlone(s, e);
    var w := Writer(s.writers[0].call + 1, Written(e, s.write));
    var f := Apply(Apply(c, WriteCode(0)), WriteArgs(0));
    assert f == c.(writers := s.writers[0 := w], cells := [Cell(s.write, e.code, e.args)]);
  }

  const ONE_SLOT := Ring([Cell(0, 0, 0)], 0, 0, 0, Resting, map[0 := Writer(0, Idle)], [], [], {}, 0, 0, 0)

  lemma PushedIsReached(s: Ring, e: Entry)
    requires Alone(s) && Reached(s, 1)
    ensures Reached(Pushed(s, e), 1)
  {
    hide Place, Reached;
    var b := Apply(s, Begin(0, e));
    ReachedNext(s, 1, Begin(0, e));
    var l := Apply(b, LoadWrite(0));
    ReachedNext(b, 1, LoadWrite(0));
    var q := Apply(l, LoadSeq(0));
    ReachedNext(l, 1, LoadSeq(0));
    ReachedNext(q, 1, Cas(0, false));
    Won(s, e);
    FilledIsReached(WonAlone(s, e));
  }

  lemma FilledIsReached(c: Ring)
    requires |c.cells| == 1 && 0 in c.writers && c.writers[0].stage.Claimed? && Reached(c, 1)
    ensures Reached(Apply(Apply(Apply(c, WriteCode(0)), WriteArgs(0)), Publish(0)), 1)
  {
    hide Place, Reached;
    var w := Apply(c, WriteCode(0));
    ReachedNext(c, 1, WriteCode(0));
    var f := Apply(w, WriteArgs(0));
    ReachedNext(w, 1, WriteArgs(0));
    ReachedNext(f, 1, Publish(0));
  }

  /**
   * One slot is a power of two as well, but not enough: after two pushes both have
   * returned and none was counted as dropped, but only one entry is there at all,
   * and not even that one is ever found.
   */
  lemma OneSlotLosesEntries(a: Entry, b: Entry)
    ensures Alone(ONE_SLOT) && Alone(Pushed(ONE_SLOT, a))
    ensures var s := Pushed(Pushed(ONE_SLOT, a), b);
      && Reached(s, 1) && |s.cells| > 0 && !Accounts(s)
      && s.returned == 2 && s.dropped == 0 && s.delivered == []
      && Enabled(s, Look) && Apply(s, Look) == s
  {
    hide Pushed, Place, Reached;
    FreshIsReached(ONE_SLOT);
    PushedAlone(ONE_SLOT, a);
    PushedIsReached(ONE_SLOT, a);
    var s := Pushed(ONE_SLOT, a);
    PushedAlone(s, b);
    PushedIsReached(s, b);
    OnlyTheLast(Pushed(s, b));
  }

  lemma OnlyTheLast(s: Ring)
    requires Alone(s) && s.write >= 1
    ensures |InRing(s)| <= 1
  {
    hide Place;
    assert forall p :: p in InRing(s) ==> p == s.write - 1;
    assert InRing(s) <= {s.write - 1};
    Subsets(InRing(s), {s.write - 1});
  }

  lemma Subsets(a: set<nat>, b: set<nat>)
    requires a <= b
    ensures |a| <= |b|
  {
    if a != {} {
      var x :| x in a;
      Subsets(a - {x}, b - {x});
    }
  }

  /** A ring accounts for every push in every interleaving exactly when it has two slots or more. */
  lemma {:induction false} AccountsIffTwoSlots(n: nat)
    requires n > 0
    ensures n >= 2 <==> forall s :: Reached(s, n) ==> |s.cells| > 0 && Accounts(s)
  {
    hide Accounts, Steps, IsFresh;
    if n >= 2 {
      forall s | Reached(s, n) ensures |s.cells| > 0 && Accounts(s) {
        var h :| IsPlayed(h) && |h.states[0].cells| == n && h.states[|h.states| - 1] == s;
        PlayedAccounts(h);
      }
    } else {
      var e := Entry(0, 0);
      OneSlotLosesEntries(e, e);
      hide Reached, Pushed;
      assert Reached(Pushed(Pushed(ONE_SLOT, e), e), n);
    }
  }

  lemma PlayedAccounts(h: History)
    requires IsPlayed(h) && |h.states[0].cells| >= 2
    ensures var s := h.states[|h.states| - 1]; |s.cells| > 0 && Accounts(s)
  {
    NothingIsUnaccounted(h, |h.states| - 1);
    hide Accounts, IsPlayed;
  }
}
