/**
 * The event ring with the positions the code has: 32 bits wide, wrapping, and
 * told apart by the sign of their difference. As long as no writer is overtaken
 * too far between loading its position and claiming it, it does what the ring
 * with unbounded positions does.
 */
module EventRing32 {
  import opened BitOps
  import opened EventRing

  const SPAN := 0x1_0000_0000
  const HALF_SPAN := 0x8000_0000

  type Position = p: int | 0 <= p < 0x1_0000_0000

  function Wrap(n: nat): Position {
    n % SPAN
  }

  /** The difference as a signed 32-bit number. */
  function Signed(a: Position, b: Position): int {
    var d := (a - b) % SPAN;
    if d < HALF_SPAN then d else d - SPAN
  }

  datatype Cell32 = Cell32(seqNo: Position, code: int, args: int)

  datatype Stage32 =
    | Idle32
    | Wants32(entry: Entry)
    | Loaded32(entry: Entry, pos: Position)
    | Checked32(entry: Entry, pos: Position, seqNo: Position)
    | Claimed32(entry: Entry, pos: Position)
    | HalfWritten32(entry: Entry, pos: Position)
    | Written32(entry: Entry, pos: Position)

  /** The shared memory and the tasks as they are, without any history. */
  datatype Ring32 = Ring32(
    cells: seq<Cell32>,
    write: Position,
    dropped: nat,
    read: Position,
    reader: Reader,
    writers: map<nat, Stage32>)

  /** The low bits of a position: `pos & (N - 1)` where `N` is two to the `k`. */
  function Masked(pos: nat, k: nat): nat {
    if k == 0 then 0 else pos % 2 + 2 * Masked(pos / 2, k - 1)
  }

  lemma {:induction false} PlaceHalves(pos: nat, n: nat)
    requires n > 0
    ensures Place(pos, 2 * n) == pos % 2 + 2 * Place(pos / 2, n)
  {
    if pos >= 2 * n {
      PlaceHalves(pos - 2 * n, n);
      assert (pos - 2 * n) / 2 == pos / 2 - n;
    }
  }

  /** The mask picks the slot that counting round the ring does. */
  lemma {:induction false} MaskedIsPlace(pos: nat, k: nat)
    ensures Masked(pos, k) == Place(pos, Pow2(k))
  {
    if k == 0 {
      AlwaysFirst(pos);
    } else {
      MaskedIsPlace(pos / 2, k - 1);
      PlaceHalves(pos, Pow2(k - 1));
    }
  }

  lemma {:induction false} AlwaysFirst(pos: nat)
    ensures Place(pos, 1) == 0
  {
  }

  /** Wrapping is a whole number of rounds. */
  lemma {:induction false} MaskedIgnoresHigh(pos: nat, high: nat, k: nat, m: nat)
    requires k <= m
    ensures Masked(pos + Up(high, m), k) == Masked(pos, k)
  {
    if k > 0 {
      assert (pos + Up(high, m)) / 2 == pos / 2 + Up(high, m - 1);
      MaskedIgnoresHigh(pos / 2, high, k - 1, m - 1);
    }
  }

  lemma UpSpan(high: nat)
    ensures Up(high, 32) == high * SPAN
  {
    UpValues(high);
    assert Up(high, 8) == high * 0x100;
    UpMore(high, 8);
    UpMore(high, 16);
    UpMore(high, 24);
  }

  lemma UpMore(high: nat, n: nat)
    ensures Up(high, n + 8) == 0x100 * Up(high, n)
  {
    assert Up(high, n + 2) == 4 * Up(high, n);
    assert Up(high, n + 4) == 0x10 * Up(high, n);
    assert Up(high, n + 6) == 0x40 * Up(high, n);
  }

  lemma WrapKeepsPlace(pos: nat, k: nat)
    requires k <= 32
    ensures Place(Wrap(pos), Pow2(k)) == Place(pos, Pow2(k))
  {
    var high := pos / SPAN;
    UpSpan(high);
    MaskedIgnoresHigh(Wrap(pos), high, k, 32);
    MaskedIsPlace(pos, k);
    MaskedIsPlace(Wrap(pos), k);
    assert pos == Wrap(pos) + high * SPAN;
  }

  /** Near each other, wrapped positions tell which one is ahead. */
  lemma SignedTells(a: nat, b: nat)
    requires a - b < HALF_SPAN && b - a <= HALF_SPAN
    ensures Signed(Wrap(a), Wrap(b)) == a - b
  {
    var x, y := a / SPAN, b / SPAN;
    assert Wrap(a) - Wrap(b) == (a - b) - (x - y) * SPAN;
  }

  lemma WrapTells(a: nat, b: nat)
    requires a - b < SPAN && b - a < SPAN
    ensures Wrap(a) == Wrap(b) <==> a == b
  {
  }

  // ----- the steps as the code takes them -----

  predicate WriterMay32(g: Stage32, a: Action)
    requires OfWriter(a)
  {
    match a
    case Begin(_, _) => g == Idle32
    case LoadWrite(_) => g.Wants32?
    case LoadSeq(_) => g.Loaded32?
    case Cas(_, _) => g.Checked32? && Signed(g.seqNo, g.pos) == 0
    case Drop(_) => g.Checked32? && Signed(g.seqNo, g.pos) < 0
    case Reload(_) => g.Checked32? && Signed(g.seqNo, g.pos) > 0
    case WriteCode(_) => g.Claimed32?
    case WriteArgs(_) => g.HalfWritten32?
    case Publish(_) => g.Written32?
  }

  predicate Enabled32(t: Ring32, a: Action) {
    if OfWriter(a) then a.who in t.writers && WriterMay32(t.writers[a.who], a)
    else match a
      case Look => t.reader == Resting
      case ReadCode => t.reader == Ready
      case ReadArgs => t.reader.HalfRead?
      case Free => t.reader == Copied
      case Advance => t.reader == Freed
      case _ => true
  }

  /** A ring of two to the `k` slots. */
  predicate HasSlots(t: Ring32, k: nat) {
    |t.cells| == Pow2(k)
  }

  function Slot(t: Ring32, k: nat, pos: Position): (i: nat)
    requires HasSlots(t, k)
    ensures i < |t.cells|
  {
    MaskedIsPlace(pos, k);
    Masked(pos, k)
  }

  function WriterStep32(t: Ring32, k: nat, a: Action): Ring32
    requires HasSlots(t, k) && OfWriter(a) && Enabled32(t, a)
  {
    var g, who := t.writers[a.who], a.who;
    match a
    case Begin(_, e) => t.(writers := t.writers[who := Wants32(e)])
    case LoadSeq(_) => t.(writers := t.writers[who := Checked32(g.entry, g.pos, t.cells[Slot(t, k, g.pos)].seqNo)])
    case Cas(_, spurious) =>
      if t.write != g.pos || spurious then t.(writers := t.writers[who := Loaded32(g.entry, t.write)])
      else t.(writers := t.writers[who := Claimed32(g.entry, g.pos)], write := Wrap(g.pos + 1))
    case Drop(_) => t.(writers := t.writers[who := Idle32], dropped := t.dropped + 1)
    case WriteCode(_) =>
      var i := Slot(t, k, g.pos);
      t.(writers := t.writers[who := HalfWritten32(g.entry, g.pos)],
           cells := t.cells[i := t.cells[i].(code := g.entry.code)])
    case WriteArgs(_) =>
      var i := Slot(t, k, g.pos);
      t.(writers := t.writers[who := Written32(g.entry, g.pos)],
           cells := t.cells[i := t.cells[i].(args := g.entry.args)])
    case Publish(_) =>
      var i := Slot(t, k, g.pos);
      t.(writers := t.writers[who := Idle32], cells := t.cells[i := t.cells[i].(seqNo := Wrap(g.pos + 1))])
    case LoadWrite(_) => t.(writers := t.writers[who := Loaded32(g.entry, t.write)])
    case Reload(_) => t.(writers := t.writers[who := Loaded32(g.entry, t.write)])
  }

  function ReaderStep32(t: Ring32, k: nat, a: Action): Ring32
    requires HasSlots(t, k) && !OfWriter(a) && Enabled32(t, a)
  {
    var i := Slot(t, k, t.read);
    var cell := t.cells[i];
    match a
    case Look => if Signed(cell.seqNo, Wrap(t.read + 1)) == 0 then t.(reader := Ready) else t
    case ReadCode => t.(reader := HalfRead(cell.code))
    case ReadArgs => t.(reader := Copied)
    case Free => t.(reader := Freed, cells := t.cells[i := cell.(seqNo := Wrap(t.read + |t.cells|))])
    case Advance => t.(reader := Resting, read := Wrap(t.read + 1))
    case TakeDropped => t.(dropped := 0)
  }

  function Apply32(t: Ring32, k: nat, a: Action): Ring32
    requires HasSlots(t, k) && Enabled32(t, a)
  {
    if OfWriter(a) then WriterStep32(t, k, a) else ReaderStep32(t, k, a)
  }

  // ----- how the unbounded ring looks at 32 bits -----

  function ViewCell(c: Cell): Cell32 {
    Cell32(Wrap(c.seqNo), c.code, c.args)
  }

  function ViewStage(g: Stage): Stage32 {
    match g
    case Idle => Idle32
    case Wants(e) => Wants32(e)
    case Loaded(e, pos) => Loaded32(e, Wrap(pos))
    case Checked(e, pos, seqNo) => Checked32(e, Wrap(pos), Wrap(seqNo))
    case Claimed(e, pos) => Claimed32(e, Wrap(pos))
    case HalfWritten(e, pos) => HalfWritten32(e, Wrap(pos))
    case Written(e, pos) => Written32(e, Wrap(pos))
  }

  function ViewCells(cells: seq<Cell>): (r: seq<Cell32>)
    ensures |r| == |cells|
    ensures forall i :: 0 <= i < |r| ==> r[i] == ViewCell(cells[i])
  {
    seq(|cells|, i requires 0 <= i < |cells| => ViewCell(cells[i]))
  }

  function ViewWriters(writers: map<nat, Writer>): (r: map<nat, Stage32>)
    ensures r.Keys == writers.Keys
    ensures forall id :: id in r ==> r[id] == ViewStage(writers[id].stage)
  {
    map id | id in writers :: ViewStage(writers[id].stage)
  }

  function View(s: Ring): Ring32 {
    Ring32(ViewCells(s.cells), Wrap(s.write), s.dropped, Wrap(s.read), s.reader, ViewWriters(s.writers))
  }

  /** The writer that acts on what it has read has not been overtaken by more than this since it loaded its position. */
  ghost predicate InReach(s: Ring, a: Action) {
    OfWriter(a) && a.who in s.writers && s.writers[a.who].stage.Checked? ==>
      s.write - s.writers[a.who].stage.pos <= HALF_SPAN - |s.cells|
  }

  lemma ViewWriter(writers: map<nat, Writer>, who: nat, w: Writer)
    ensures ViewWriters(writers[who := w]) == ViewWriters(writers)[who := ViewStage(w.stage)]
  {
  }

  lemma ViewSetCell(cells: seq<Cell>, i: nat, c: Cell)
    requires i < |cells|
    ensures ViewCells(cells[i := c]) == ViewCells(cells)[i := ViewCell(c)]
  {
  }

  lemma WrapAdds(a: nat, b: nat)
    ensures Wrap(Wrap(a) + b) == Wrap(a + b)
  {
  }

  lemma SameSlot(s: Ring, k: nat, pos: nat)
    requires |s.cells| == Pow2(k) && k <= 31
    ensures HasSlots(View(s), k) && Slot(View(s), k, Wrap(pos)) == At(s, pos)
  {
    WrapKeepsPlace(pos, k);
    MaskedIsPlace(Wrap(pos), k);
  }

  /** The signed difference decides as the unbounded positions do. */
  lemma SameDecision(s: Ring, who: nat)
    requires Inv(s) && who in s.writers && s.writers[who].stage.Checked?
    requires |s.cells| < HALF_SPAN && s.write - s.writers[who].stage.pos <= HALF_SPAN - |s.cells|
    ensures var g := s.writers[who].stage;
      && Signed(Wrap(g.seqNo), Wrap(g.pos)) == g.seqNo - g.pos
      && (Wrap(s.write) == Wrap(g.pos) <==> s.write == g.pos)
  {
    hide Place;
    var g := s.writers[who].stage;
    assert WriterHolds(s, who, s.writers[who]);
    SequenceIsNear(s, g.pos);
    SignedTells(g.seqNo, g.pos);
    WrapTells(s.write, g.pos);
    hide CellsHold, EntriesHold, ClaimsHold;
  }

  lemma SameLook(s: Ring)
    requires Inv(s) && s.reader == Resting && |s.cells| < HALF_SPAN
    ensures Signed(Wrap(s.cells[At(s, s.read)].seqNo), Wrap(Wrap(s.read) + 1)) == 0
      <==> s.cells[At(s, s.read)].seqNo == s.read + 1
  {
    hide Place;
    assert CellIs(s, s.read);
    WrapAdds(s.read, 1);
    SignedTells(s.cells[At(s, s.read)].seqNo, s.read + 1);
    hide CellsHold, EntriesHold, ClaimsHold, WritersHold;
  }

  lemma SameEnabled(s: Ring, a: Action)
    requires Inv(s) && InReach(s, a) && |s.cells| < HALF_SPAN
    ensures Enabled(s, a) <==> Enabled32(View(s), a)
  {
    hide Inv, Signed, Wrap;
    if OfWriter(a) && a.who in s.writers && s.writers[a.who].stage.Checked? {
      SameDecision(s, a.who);
    }
  }

  predicate Writes(a: Action) {
    a.WriteCode? || a.WriteArgs? || a.Publish?
  }

  /** Steps that move a writer on without touching a slot. */
  lemma SameTryingStep(s: Ring, k: nat, a: Action)
    requires Inv(s) && InReach(s, a) && |s.cells| == Pow2(k) < HALF_SPAN && k <= 31
    requires Enabled(s, a) && Enabled32(View(s), a) && OfWriter(a) && !Writes(a)
    ensures HasSlots(View(s), k) && Apply32(View(s), k, a) == View(Apply(s, a))
  {
    hide Inv, Signed, Wrap, Place, Masked;
    var w, who := s.writers[a.who], a.who;
    if w.stage.Checked? {
      SameDecision(s, who);
      WrapAdds(w.stage.pos, 1);
    }
    if w.stage.Loaded? {
      SameSlot(s, k, w.stage.pos);
    }
    ViewWriter(s.writers, who, Apply(s, a).writers[who]);
  }

  lemma SameWritingStep(s: Ring, k: nat, a: Action)
    requires |s.cells| == Pow2(k) && k <= 31
    requires Enabled(s, a) && Enabled32(View(s), a) && OfWriter(a) && Writes(a)
    ensures HasSlots(View(s), k) && Apply32(View(s), k, a) == View(Apply(s, a))
  {
    hide Signed, Wrap, Place, Masked;
    var w, d := s.writers[a.who], Apply(s, a);
    SameSlot(s, k, w.stage.pos);
    WrapAdds(w.stage.pos, 1);
    ViewSetCell(s.cells, At(s, w.stage.pos), d.cells[At(s, w.stage.pos)]);
    ViewWriter(s.writers, a.who, d.writers[a.who]);
  }

  lemma SameReaderStep(s: Ring, k: nat, a: Action)
    requires Inv(s) && |s.cells| == Pow2(k) < HALF_SPAN && k <= 31
    requires Enabled(s, a) && Enabled32(View(s), a) && !OfWriter(a)
    ensures HasSlots(View(s), k) && Apply32(View(s), k, a) == View(Apply(s, a))
  {
    hide Inv, Signed, Wrap, Place, Masked;
    SameSlot(s, k, s.read);
    WrapAdds(s.read, 1);
    WrapAdds(s.read, |s.cells|);
    ViewSetCell(s.cells, At(s, s.read), Apply(s, a).cells[At(s, s.read)]);
    if a.Look? {
      SameLook(s);
    }
  }

  lemma SlotsAreFew(k: nat)
    requires k <= 30
    ensures 0 < Pow2(k) < HALF_SPAN
  {
    PowGrows(k, 30);
    PowValues();
    assert Pow2(20) == 0x10_0000;
  }

  /** Step for step, the ring of 32-bit positions does what the unbounded one does. */
  lemma StepRefines(s: Ring, k: nat, a: Action)
    requires Inv(s) && InReach(s, a) && |s.cells| == Pow2(k) && k <= 30
    ensures |s.cells| > 0
    ensures Enabled(s, a) <==> Enabled32(View(s), a)
    ensures Enabled(s, a) ==> HasSlots(View(s), k) && Apply32(View(s), k, a) == View(Apply(s, a))
  {
    hide Inv, InReach, Enabled, Enabled32, Apply, Apply32, Pow2, HasSlots, View, Writes;
    SlotsAreFew(k);
    SameEnabled(s, a);
    if Enabled(s, a) {
      if !OfWriter(a) {
        SameReaderStep(s, k, a);
      } else if Writes(a) {
        SameWritingStep(s, k, a);
      } else {
        SameTryingStep(s, k, a);
      }
    }
  }

  // ----- whole runs -----

  /** A schedule played on the unbounded ring, or none where a step of it is not possible. */
  function Run(s: Ring, schedule: seq<Action>): (r: seq<Ring>)
    requires |s.cells| > 0
    ensures 1 <= |r| <= |schedule| + 1 && r[0] == s
    decreases |schedule|
  {
    if schedule == [] || !Enabled(s, schedule[0]) then [s] else [s] + Run(Apply(s, schedule[0]), schedule[1..])
  }

  /** The same schedule at 32 bits, as far as it can be played. */
  function Run32(t: Ring32, k: nat, schedule: seq<Action>): (r: seq<Ring32>)
    requires HasSlots(t, k)
    ensures 1 <= |r| <= |schedule| + 1 && r[0] == t
    decreases |schedule|
  {
    if schedule == [] || !Enabled32(t, schedule[0]) then [t]
    else [t] + Run32(Apply32(t, k, schedule[0]), k, schedule[1..])
  }

  /**
   * Every schedule can be played just as far on either ring, and leaves the same
   * slots, tasks and counts at every step, as long as no writer acts out of reach.
   */
  lemma {:induction false} RunRefines(s: Ring, k: nat, schedule: seq<Action>)
    requires Inv(s) && |s.cells| == Pow2(k) && k <= 30
    requires forall i :: 0 <= i < |Run(s, schedule)| && i < |schedule| ==> InReach(Run(s, schedule)[i], schedule[i])
    ensures HasSlots(View(s), k)
    ensures var r, t := Run(s, schedule), Run32(View(s), k, schedule);
      |r| == |t| && forall i :: 0 <= i < |r| ==> t[i] == View(r[i])
    decreases |schedule|
  {
    hide Inv, InReach, Enabled, Enabled32, Apply, Apply32, Pow2;
    if schedule != [] {
      var a := schedule[0];
      assert InReach(Run(s, schedule)[0], schedule[0]);
      StepRefines(s, k, a);
      if Enabled(s, a) {
        var d := Apply(s, a);
        ActionKeeps(s, a);
        SameSize(s, a);
        assert Run(s, schedule) == [s] + Run(d, schedule[1..]);
        forall i | 0 <= i < |Run(d, schedule[1..])| && i < |schedule[1..]|
          ensures InReach(Run(d, schedule[1..])[i], schedule[1..][i])
        {
          assert Run(s, schedule)[i + 1] == Run(d, schedule[1..])[i];
          assert InReach(Run(s, schedule)[i + 1], schedule[i + 1]);
        }
        RunRefines(d, k, schedule[1..]);
      }
    }
  }
}
