/**
 * How the loop learns that a published field has changed: setters store, then
 * raise a flag; the loop tests the flag, clears it, and only then reads. One step
 * per atomic operation, any number of setters, every interleaving.
 */
module Notify {

  datatype Setter =
    | Done
    // found a different value, and is about to store its own
    | Compared(field: nat, value: int)
    // has stored, and is about to raise the flag
    | Stored(field: nat)

  datatype Loop =
    | Resting
    | Tested
    // the flag is cleared; fields before `next` have been read
    | Reading(next: nat)

  /** The published fields, and what the last callback made of each. */
  datatype State = State(
    fields: seq<int>,
    seen: seq<int>,
    changed: bool,
    setters: map<nat, Setter>,
    loop: Loop)

  datatype Step =
    // a setter that always stores, one that exchanges, and one that looks first
    | Store(who: nat, field: nat, value: int)
    | Exchange(who: nat, field: nat, value: int)
    | Compare(who: nat, field: nat, value: int)
    | StoreCompared(who: nat)
    | Raise(who: nat)
    | Test
    | Clear
    | Read
    | Return

  predicate Enabled(s: State, t: Step) {
    match t
    case Store(who, field, _) => Free(s, who) && field < |s.fields|
    case Exchange(who, field, _) => Free(s, who) && field < |s.fields|
    case Compare(who, field, _) => Free(s, who) && field < |s.fields|
    case StoreCompared(who) => who in s.setters && s.setters[who].Compared? && s.setters[who].field < |s.fields|
    case Raise(who) => who in s.setters && s.setters[who].Stored?
    case Test => s.loop == Resting
    case Clear => s.loop == Tested
    case Read => s.loop.Reading? && s.loop.next < |s.fields| == |s.seen|
    case Return => s.loop.Reading? && s.loop.next >= |s.fields|
  }

  predicate Free(s: State, who: nat) {
    who in s.setters && s.setters[who] == Done
  }

  function Put(s: State, who: nat, field: nat, value: int): State
    requires field < |s.fields|
  {
    s.(fields := s.fields[field := value], setters := s.setters[who := Stored(field)])
  }

  function Apply(s: State, t: Step): State
    requires Enabled(s, t)
  {
    match t
    case Store(who, field, value) => Put(s, who, field, value)
    case Exchange(who, field, value) => if s.fields[field] == value then s else Put(s, who, field, value)
    case Compare(who, field, value) =>
      if s.fields[field] == value then s else s.(setters := s.setters[who := Compared(field, value)])
    case StoreCompared(who) => Put(s, who, s.setters[who].field, s.setters[who].value)
    case Raise(who) => s.(changed := true, setters := s.setters[who := Done])
    case Test => if s.changed then s.(loop := Tested) else s
    case Clear => s.(changed := false, loop := Reading(0))
    case Read => s.(seen := s.seen[s.loop.next := s.fields[s.loop.next]], loop := Reading(s.loop.next + 1))
    case Return => s.(loop := Resting)
  }

  // ----- nothing is lost -----

  /** A setter has stored this field and not raised the flag for it yet. */
  ghost predicate AboutToRaise(s: State, field: nat) {
    exists who :: who in s.setters && s.setters[who] == Stored(field)
  }

  predicate AboutToRead(s: State, field: nat) {
    s.loop.Reading? && s.loop.next <= field
  }

  /** What a field holds is what the last callback read, or a callback is still to come. */
  ghost predicate Heeded(s: State, field: nat)
    requires field < |s.fields| == |s.seen|
  {
    s.fields[field] == s.seen[field] || s.changed || AboutToRaise(s, field) || AboutToRead(s, field)
  }

  ghost predicate Inv(s: State) {
    |s.fields| == |s.seen| && forall f :: 0 <= f < |s.fields| ==> Heeded(s, f)
  }

  /** A setter at work leaves the other setters where they are. */
  lemma OtherSetters(s: State, d: State, who: nat, field: nat)
    requires who in d.setters && who in s.setters
    requires forall id :: id in s.setters && id != who ==> id in d.setters && d.setters[id] == s.setters[id]
    requires s.setters[who] != Stored(field)
    ensures AboutToRaise(s, field) ==> AboutToRaise(d, field)
  {
  }

  lemma PutKeeps(s: State, who: nat, field: nat, value: int)
    requires Inv(s) && who in s.setters && !s.setters[who].Stored? && field < |s.fields|
    ensures Inv(Put(s, who, field, value))
  {
    var d := Put(s, who, field, value);
    forall f | 0 <= f < |d.fields| ensures Heeded(d, f) {
      assert Heeded(s, f);
      if f == field {
        assert d.setters[who] == Stored(field);
      } else {
        OtherSetters(s, d, who, f);
      }
    }
  }

  lemma StepKeeps(s: State, t: Step)
    requires Inv(s) && Enabled(s, t)
    ensures Inv(Apply(s, t))
  {
    var d := Apply(s, t);
    match t
    case Store(who, field, value) => PutKeeps(s, who, field, value);
    case Exchange(who, field, value) => PutKeeps(s, who, field, value);
    case StoreCompared(who) => PutKeeps(s, who, s.setters[who].field, s.setters[who].value);
    case Compare(who, field, value) =>
      forall f | 0 <= f < |d.fields| ensures Heeded(d, f) {
        assert Heeded(s, f);
        OtherSetters(s, d, who, f);
      }
    case _ =>
      forall f | 0 <= f < |d.fields| ensures Heeded(d, f) {
        assert Heeded(s, f);
      }
  }

  datatype Trace = Trace(states: seq<State>, steps: seq<Step>)

  /** Nothing is published, and nobody at work, to begin with. */
  ghost predicate IsTrace(h: Trace) {
    && |h.states| == |h.steps| + 1
    && h.states[0].fields == h.states[0].seen && h.states[0].loop == Resting
    && (forall who :: who in h.states[0].setters ==> h.states[0].setters[who] == Done)
    && forall k :: 0 <= k < |h.steps| ==> Steps(h, k)
  }

  ghost predicate Steps(h: Trace, k: nat)
    requires k < |h.steps| == |h.states| - 1
  {
    Enabled(h.states[k], h.steps[k]) && h.states[k + 1] == Apply(h.states[k], h.steps[k])
  }

  lemma {:induction false} AlwaysHeeded(h: Trace, k: nat)
    requires IsTrace(h) && k < |h.states|
    ensures Inv(h.states[k])
  {
    if k > 0 {
      AlwaysHeeded(h, k - 1);
      assert Steps(h, k - 1);
      StepKeeps(h.states[k - 1], h.steps[k - 1]);
      hide Apply, Enabled, Heeded;
    }
  }

  /** No change goes unnoticed: with everybody at rest and no flag raised, the last callback read it all. */
  lemma NoChangeIsLost(h: Trace, k: nat)
    requires IsTrace(h) && k < |h.states|
    requires h.states[k].loop == Resting && !h.states[k].changed
    requires forall who :: who in h.states[k].setters ==> !h.states[k].setters[who].Stored?
    ensures h.states[k].seen == h.states[k].fields
  {
    AlwaysHeeded(h, k);
    var s := h.states[k];
    forall f | 0 <= f < |s.fields| ensures s.fields[f] == s.seen[f] {
      assert Heeded(s, f);
    }
  }
}
