/**
 * The event ring as an object, used by one task at a time: a queue of so many
 * entries that refuses and counts what does not fit.
 */
module HcpEventRing {
  import opened BitOps
  import opened EventRing
  import opened EventRing32

  /** The slot of a position waits to be read, or to be written. */
  predicate NumberedAt(seqs: seq<Position>, p: nat, end: nat)
    requires |seqs| > 0
  {
    seqs[Place(p, |seqs|)] == Wrap(if p < end then p + 1 else p)
  }

  /** Sequence numbers of a ring that holds the positions `from` to `end`. */
  ghost predicate Numbered(seqs: seq<Position>, from: nat, end: nat) {
    && 0 < |seqs| && from <= end <= from + |seqs|
    && forall p: nat :: from <= p < from + |seqs| ==> NumberedAt(seqs, p, end)
  }

  ghost predicate Filled(entries: seq<Entry>, from: nat, contents: seq<Entry>) {
    && 0 < |entries|
    && forall p: nat :: from <= p < from + |contents| ==> entries[Place(p, |entries|)] == contents[p - from]
  }

  /** Slots that hold these entries, the oldest at position `from`, and are free behind them. */
  ghost predicate Laid(seqs: seq<Position>, entries: seq<Entry>, from: nat, contents: seq<Entry>) {
    |seqs| == |entries| && Numbered(seqs, from, from + |contents|) && Filled(entries, from, contents)
  }

  /** No other position in the ring has the slot of this one. */
  lemma OthersApart(pos: nat, n: nat)
    requires n > 0
    ensures forall p: nat :: p != pos && p < pos + n && pos < p + n ==> Place(p, n) != Place(pos, n)
  {
    forall p: nat | p != pos && p < pos + n && pos < p + n ensures Place(p, n) != Place(pos, n) {
      if p < pos {
        PlacesDiffer(p, pos, n);
      } else {
        PlacesDiffer(pos, p, n);
      }
    }
  }

  lemma RoundTheRing(pos: nat, n: nat)
    requires n > 0
    ensures Place(pos + n, n) == Place(pos, n)
  {
  }

  lemma NumberedPush(seqs: seq<Position>, from: nat, end: nat)
    requires Numbered(seqs, from, end) && end < from + |seqs|
    ensures Numbered(seqs[Place(end, |seqs|) := Wrap(end + 1)], from, end + 1)
  {
    hide Place, Wrap;
    var d, next := seqs[Place(end, |seqs|) := Wrap(end + 1)], end + 1;
    forall p: nat | from <= p < from + |seqs| ensures NumberedAt(d, p, next) {
      assert NumberedAt(seqs, p, end);
      if p < end {
        PlacesDiffer(p, end, |seqs|);
      } else if p > end {
        PlacesDiffer(end, p, |seqs|);
      }
    }
  }

  lemma LaidPush(seqs: seq<Position>, entries: seq<Entry>, from: nat, contents: seq<Entry>, e: Entry)
    requires Laid(seqs, entries, from, contents) && |contents| < |seqs|
    ensures var pos := from + |contents|;
      var i := Place(pos, |seqs|);
      Laid(seqs[i := Wrap(pos + 1)], entries[i := e], from, contents + [e])
  {
    hide Place, Wrap;
    NumberedPush(seqs, from, from + |contents|);
    OthersApart(from + |contents|, |seqs|);
  }

  lemma NumberedTake(seqs: seq<Position>, from: nat, end: nat)
    requires Numbered(seqs, from, end) && from < end
    ensures Numbered(seqs[Place(from, |seqs|) := Wrap(from + |seqs|)], from + 1, end)
  {
    hide Place, Wrap;
    var d, n := seqs[Place(from, |seqs|) := Wrap(from + |seqs|)], |seqs|;
    forall p: nat | from + 1 <= p < from + 1 + n ensures NumberedAt(d, p, end) {
      if p == from + n {
        RoundTheRing(from, n);
      } else {
        assert NumberedAt(seqs, p, end);
        PlacesDiffer(from, p, n);
      }
    }
  }

  lemma HasSlotsAt(seqs: seq<Position>, from: nat, end: nat)
    requires Numbered(seqs, from, end)
    ensures 0 < |seqs|
  {
  }

  lemma FilledTake(entries: seq<Entry>, from: nat, contents: seq<Entry>)
    requires Filled(entries, from, contents) && contents != []
    ensures entries[Place(from, |entries|)] == contents[0] && Filled(entries, from + 1, contents[1..])
  {
    hide Place;
  }

  lemma LaidTake(seqs: seq<Position>, entries: seq<Entry>, from: nat, contents: seq<Entry>)
    requires Laid(seqs, entries, from, contents) && contents != []
    ensures |seqs| > 0
    ensures var i := Place(from, |seqs|);
      entries[i] == contents[0] && Laid(seqs[i := Wrap(from + |seqs|)], entries, from + 1, contents[1..])
  {
    hide Place, Wrap, Numbered, Filled;
    HasSlotsAt(seqs, from, from + |contents|);
    NumberedTake(seqs, from, from + |contents|);
    FilledTake(entries, from, contents);
  }

  /** The slot of the next position is free, or holds the oldest entry. */
  lemma FreeOrFull(seqs: seq<Position>, entries: seq<Entry>, from: nat, contents: seq<Entry>)
    requires Laid(seqs, entries, from, contents) && 2 <= |seqs| < HALF_SPAN
    ensures var pos := from + |contents|;
      Signed(seqs[Place(pos, |seqs|)], Wrap(pos)) == 0 <==> |contents| < |seqs|
  {
    var pos := from + |contents|;
    if |contents| < |seqs| {
      assert NumberedAt(seqs, pos, from + |contents|);
      SignedTells(pos, pos);
    } else {
      RoundTheRing(from, |seqs|);
      assert NumberedAt(seqs, from, from + |contents|);
      SignedTells(from + 1, pos);
    }
  }

  lemma WrittenOrNot(seqs: seq<Position>, entries: seq<Entry>, from: nat, contents: seq<Entry>)
    requires Laid(seqs, entries, from, contents)
    ensures Signed(seqs[Place(from, |seqs|)], Wrap(Wrap(from) + 1)) == 0 <==> contents != []
  {
    assert NumberedAt(seqs, from, from + |contents|);
    WrapAdds(from, 1);
    SignedTells(from + 1, from + 1);
    SignedTells(from, from + 1);
  }

  lemma Sizes(k: nat)
    requires 1 <= k <= 30
    ensures 2 <= Pow2(k) < HALF_SPAN
  {
    SlotsAreFew(k);
    PowGrows(1, k);
  }

  class HcpEventRing {
    const bits: nat
    const seqs: array<Position>
    const entries: array<Entry>
    var write: Position
    var read: Position
    var dropped: nat
    // Where the reader is before its position wraps, and what is queued for it.
    ghost var takes: nat
    ghost var contents: seq<Entry>

    ghost predicate Valid()
      reads this, seqs, entries
    {
      && 1 <= bits <= 30 && seqs.Length == entries.Length == Pow2(bits)
      && write == Wrap(takes + |contents|) && read == Wrap(takes)
      && Laid(seqs[..], entries[..], takes, contents)
    }

    constructor (k: nat)
      requires 1 <= k <= 30
      ensures Valid() && fresh(seqs) && fresh(entries) && bits == k && contents == [] && dropped == 0
    {
      Sizes(k);
      bits := k;
      seqs := new Position[Pow2(k)](i requires 0 <= i < Pow2(k) => i);
      entries := new Entry[Pow2(k)](i => Entry(0, 0));
      write, read, dropped := 0, 0, 0;
      takes, contents := 0, [];
    }

    method SlotOf(pos: Position) returns (i: nat)
      requires Valid()
      ensures i == Place(pos, seqs.Length) < seqs.Length
    {
      MaskedIsPlace(pos, bits);
      i := Masked(pos, bits);
    }

    /** Queues an entry, or counts it where the ring is full: the oldest are the ones kept. */
    method Push(e: Entry)
      requires Valid()
      modifies this`write, this`dropped, this`contents, seqs, entries
      ensures Valid()
      ensures |old(contents)| < seqs.Length ==> contents == old(contents) + [e] && dropped == old(dropped)
      ensures |old(contents)| == seqs.Length ==> contents == old(contents) && dropped == old(dropped) + 1
    {
      hide Place, Masked, Wrap, Signed, Laid, Pow2;
      var pos: int := write;
      var i := SlotOf(pos);
      ghost var claims := takes + |contents|;
      WrapKeepsPlace(claims, bits);
      Sizes(bits);
      FreeOrFull(seqs[..], entries[..], takes, contents);
      // With nobody else about, the first look decides.
      if Signed(seqs[i], pos) == 0 {
        LaidPush(seqs[..], entries[..], takes, contents, e);
        WrapAdds(claims, 1);
        write := Wrap(pos + 1);
        entries[i] := e;
        // Only now may the reader look.
        seqs[i] := Wrap(pos + 1);
        contents := contents + [e];
      } else {
        dropped := dropped + 1;
      }
    }

    /** Up to `max` entries, oldest first. */
    method Drain(max: nat) returns (out: seq<Entry>)
      requires Valid()
      modifies this`read, this`takes, this`contents, seqs
      ensures Valid() && dropped == old(dropped)
      ensures old(contents) == out + contents
      ensures |out| == if |old(contents)| <= max then |old(contents)| else max
    {
      hide Place, Masked, Wrap, Pow2, Signed, Laid;
      out := [];
      while |out| < max
        invariant Valid() && |out| <= max
        invariant old(contents) == out + contents
        decreases max - |out|
      {
        var pos: int := read;
        var i := SlotOf(pos);
        WrapKeepsPlace(takes, bits);
        WrittenOrNot(seqs[..], entries[..], takes, contents);
        if Signed(seqs[i], Wrap(pos + 1)) != 0 {
          break;
        }
        LaidTake(seqs[..], entries[..], takes, contents);
        WrapAdds(takes, 1);
        WrapAdds(takes, seqs.Length);
        out := out + [entries[i]];
        seqs[i] := Wrap(pos + seqs.Length);
        read := Wrap(pos + 1);
        takes := takes + 1;
        contents := contents[1..];
      }
    }

    method TakeDropped() returns (n: nat)
      modifies this`dropped
      ensures n == old(dropped) && dropped == 0
      ensures old(Valid()) ==> Valid()
    {
      n := dropped;
      dropped := 0;
    }
  }

  const BATCH := 16

  /** The loop's turn: batches until one comes back short, and then what was lost. */
  method DrainEvents(ring: HcpEventRing) returns (all: seq<Entry>, lost: nat)
    requires ring.Valid()
    modifies ring, ring.seqs
    ensures ring.Valid() && ring.contents == [] && ring.dropped == 0
    ensures all == old(ring.contents) && lost == old(ring.dropped)
  {
    hide Laid, Wrap, Pow2;
    all := [];
    var n := BATCH;
    while n == BATCH
      invariant ring.Valid() && old(ring.contents) == all + ring.contents && ring.dropped == old(ring.dropped)
      invariant n <= BATCH && (n < BATCH ==> ring.contents == [])
      decreases |ring.contents|, n
    {
      var batch := ring.Drain(BATCH);
      all := all + batch;
      n := |batch|;
    }
    assert all + [] == all;
    lost := ring.TakeDropped();
  }
}
