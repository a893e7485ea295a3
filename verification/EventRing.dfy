/**
 * The event ring between the tasks, one step per atomic operation: any number of
 * writers, one reader, in every interleaving. Positions are unbounded here;
 * `EventRing32` shows that the wrapping ones behave the same.
 */
module EventRing {

  /** An entry is written and read in two halves, so that a torn one could show. */
  datatype Entry = Entry(code: int, args: int)

  /** A slot: its sequence number, and the two halves of its entry. */
  datatype Cell = Cell(seqNo: nat, code: int, args: int)

  datatype Stage =
    | Idle
    | Wants(entry: Entry)
    // the position was loaded
    | Loaded(entry: Entry, pos: nat)
    // and the sequence number of its slot
    | Checked(entry: Entry, pos: nat, seqNo: nat)
    // the position is ours
    | Claimed(entry: Entry, pos: nat)
    | HalfWritten(entry: Entry, pos: nat)
    | Written(entry: Entry, pos: nat)
  {
    predicate Holds() {
      Claimed? || HalfWritten? || Written?
    }

    /** The push under way has neither a place nor an end yet. */
    predicate Trying() {
      Wants? || Loaded? || Checked?
    }
  }

  /** `call` numbers a writer's pushes. */
  datatype Writer = Writer(call: nat, stage: Stage)

  datatype Reader = Resting | Ready | HalfRead(code: int) | Copied | Freed

  datatype Claim = Claim(who: nat, call: nat, entry: Entry)

  /**
   * The shared memory and the tasks, and beside them their history: claims in the
   * order in which they were won, what was delivered, which positions are
   * handed over and not taken yet, and how many slots have been given back.
   */
  datatype Ring = Ring(
    cells: seq<Cell>,
    write: nat,
    dropped: nat,
    read: nat,
    reader: Reader,
    writers: map<nat, Writer>,
    claims: seq<Claim>,
    delivered: seq<Entry>,
    ready: set<nat>,
    freed: nat,
    returned: nat,
    taken: nat)

  datatype Action =
    | Begin(who: nat, entry: Entry)
    | LoadWrite(who: nat)
    | LoadSeq(who: nat)
    | Cas(who: nat, spurious: bool)
    | Drop(who: nat)
    | Reload(who: nat)
    | WriteCode(who: nat)
    | WriteArgs(who: nat)
    | Publish(who: nat)
    | Look
    | ReadCode
    | ReadArgs
    | Free
    | Advance
    | TakeDropped

  predicate OfWriter(a: Action) {
    !a.Look? && !a.ReadCode? && !a.ReadArgs? && !a.Free? && !a.Advance? && !a.TakeDropped?
  }

  /** A position, brought round the ring of `n` slots. */
  function Place(pos: nat, n: nat): (i: nat)
    requires n > 0
    ensures i < n
  {
    if pos < n then pos else Place(pos - n, n)
  }

  /** The slot of a position. */
  function At(s: Ring, pos: nat): (i: nat)
    requires |s.cells| > 0
    ensures i < |s.cells|
  {
    Place(pos, |s.cells|)
  }

  predicate Enabled(s: Ring, a: Action) {
    if OfWriter(a) then a.who in s.writers && WriterMay(s.writers[a.who].stage, a)
    else match a
      case Look => s.reader == Resting
      case ReadCode => s.reader == Ready
      case ReadArgs => s.reader.HalfRead?
      case Free => s.reader == Copied
      case Advance => s.reader == Freed
      case _ => true
  }

  predicate WriterMay(g: Stage, a: Action)
    requires OfWriter(a)
  {
    match a
    case Begin(_, _) => g == Idle
    case LoadWrite(_) => g.Wants?
    case LoadSeq(_) => g.Loaded?
    case Cas(_, _) => g.Checked? && g.seqNo == g.pos
    case Drop(_) => g.Checked? && g.seqNo < g.pos
    case Reload(_) => g.Checked? && g.seqNo > g.pos
    case WriteCode(_) => g.Claimed?
    case WriteArgs(_) => g.HalfWritten?
    case Publish(_) => g.Written?
  }

  function Staged(s: Ring, who: nat, g: Stage): Ring
    requires who in s.writers
  {
    s.(writers := s.writers[who := s.writers[who].(stage := g)])
  }

  function SetCell(s: Ring, pos: nat, c: Cell): Ring
    requires |s.cells| > 0
  {
    s.(cells := s.cells[At(s, pos) := c])
  }

  function WriterStep(s: Ring, a: Action): Ring
    requires |s.cells| > 0 && OfWriter(a) && Enabled(s, a)
  {
    var w := s.writers[a.who];
    var g := w.stage;
    match a
    case Begin(who, e) => s.(writers := s.writers[who := Writer(w.call + 1, Wants(e))])
    case LoadWrite(who) => Staged(s, who, Loaded(g.entry, s.write))
    case LoadSeq(who) => Staged(s, who, Checked(g.entry, g.pos, s.cells[At(s, g.pos)].seqNo))
    case Cas(who, spurious) =>
      // A failed exchange hands back the value it found.
      if s.write != g.pos || spurious then Staged(s, who, Loaded(g.entry, s.write))
      else Staged(s, who, Claimed(g.entry, g.pos)).(
        write := s.write + 1, claims := s.claims + [Claim(who, w.call, g.entry)])
    case Drop(who) => Staged(s, who, Idle).(dropped := s.dropped + 1, returned := s.returned + 1)
    case Reload(who) => Staged(s, who, Loaded(g.entry, s.write))
    case WriteCode(who) =>
      SetCell(Staged(s, who, HalfWritten(g.entry, g.pos)), g.pos, s.cells[At(s, g.pos)].(code := g.entry.code))
    case WriteArgs(who) =>
      SetCell(Staged(s, who, Written(g.entry, g.pos)), g.pos, s.cells[At(s, g.pos)].(args := g.entry.args))
    case Publish(who) =>
      SetCell(Staged(s, who, Idle), g.pos, s.cells[At(s, g.pos)].(seqNo := g.pos + 1)).(
        ready := s.ready + {g.pos}, returned := s.returned + 1)
  }

  function ReaderStep(s: Ring, a: Action): Ring
    requires |s.cells| > 0 && !OfWriter(a) && Enabled(s, a)
  {
    var cell := s.cells[At(s, s.read)];
    match a
    case Look => if cell.seqNo == s.read + 1 then s.(reader := Ready) else s
    case ReadCode => s.(reader := HalfRead(cell.code))
    case ReadArgs => s.(reader := Copied, delivered := s.delivered + [Entry(s.reader.code, cell.args)],
                        ready := s.ready - {s.read})
    case Free => SetCell(s, s.read, cell.(seqNo := s.read + |s.cells|)).(reader := Freed, freed := s.freed + 1)
    case Advance => s.(reader := Resting, read := s.read + 1)
    case TakeDropped => s.(taken := s.taken + s.dropped, dropped := 0)
  }

  function Apply(s: Ring, a: Action): Ring
    requires |s.cells| > 0 && Enabled(s, a)
  {
    if OfWriter(a) then WriterStep(s, a) else ReaderStep(s, a)
  }

  /** The ring as it is set up, of any size. */
  ghost predicate IsFresh(s: Ring) {
    && |s.cells| > 0
    && (forall i :: 0 <= i < |s.cells| ==> s.cells[i].seqNo == i)
    && (forall id :: id in s.writers ==> s.writers[id] == Writer(0, Idle))
    && s.write == s.dropped == s.read == s.freed == s.returned == s.taken == 0
    && s.reader == Resting && s.claims == [] && s.delivered == [] && s.ready == {}
  }

  ghost predicate IsNew(s: Ring) {
    IsFresh(s) && |s.cells| >= 2
  }

  // ----- the invariant -----

  /** The entry at this position is complete in its slot, or already copied out. */
  predicate Published(s: Ring, pos: nat) {
    pos < |s.delivered| || pos in s.ready
  }

  predicate CellIs(s: Ring, pos: nat)
    requires |s.cells| > 0
  {
    s.cells[At(s, pos)].seqNo == (if Published(s, pos) then pos + 1 else pos)
  }

  /** Positions are claimed, delivered and given back in order, never more than the ring holds. */
  predicate Ordered(s: Ring) {
    && |s.cells| >= 2
    && s.write == |s.claims|
    && s.freed <= |s.delivered| <= s.write <= s.freed + |s.cells|
    && (match s.reader
        case Copied => s.read == s.freed == |s.delivered| - 1
        case Freed => s.read + 1 == s.freed == |s.delivered|
        case _ => s.read == s.freed == |s.delivered|)
  }

  ghost predicate CellsHold(s: Ring)
    requires |s.cells| > 0
  {
    forall p: nat :: s.freed <= p < s.freed + |s.cells| ==> CellIs(s, p)
  }

  predicate Holding(s: Ring, pos: nat)
    requires |s.cells| > 0
  {
    && |s.delivered| <= pos < |s.claims|
    && s.cells[At(s, pos)].code == s.claims[pos].entry.code && s.cells[At(s, pos)].args == s.claims[pos].entry.args
  }

  ghost predicate EntriesHold(s: Ring)
    requires |s.cells| > 0
  {
    && (forall p :: p in s.ready ==> Holding(s, p))
    && |s.delivered| <= |s.claims|
    && forall i :: 0 <= i < |s.delivered| ==> s.delivered[i] == s.claims[i].entry
  }

  predicate ReaderHolds(s: Ring) {
    match s.reader
    case Ready => s.read in s.ready
    case HalfRead(code) => s.read in s.ready && s.read < |s.claims| && code == s.claims[s.read].entry.code
    case _ => true
  }

  predicate WriterHolds(s: Ring, id: nat, w: Writer)
    requires |s.cells| > 0
  {
    match w.stage
    case Loaded(_, pos) => pos <= s.write
    case Checked(_, pos, seqNo) =>
      pos <= s.write && seqNo <= s.cells[At(s, pos)].seqNo && pos <= seqNo + |s.cells|
    case Claimed(e, pos) => Owns(s, id, w, pos)
    case HalfWritten(e, pos) => Owns(s, id, w, pos) && s.cells[At(s, pos)].code == e.code
    case Written(e, pos) => Owns(s, id, w, pos) && s.cells[At(s, pos)].code == e.code
                            && s.cells[At(s, pos)].args == e.args
    case _ => true
  }

  predicate Owns(s: Ring, id: nat, w: Writer, pos: nat)
    requires w.stage.Holds()
  {
    |s.delivered| <= pos < |s.claims| && pos !in s.ready && s.claims[pos] == Claim(id, w.call, w.stage.entry)
  }

  ghost predicate WritersHold(s: Ring)
    requires |s.cells| > 0
  {
    forall id :: id in s.writers ==> WriterHolds(s, id, s.writers[id])
  }

  /** A claim is one of its writer's calls, and not of the one that is still trying. */
  predicate ClaimIs(s: Ring, c: Claim) {
    && c.who in s.writers
    && c.call <= s.writers[c.who].call
    && (s.writers[c.who].stage.Trying() ==> c.call < s.writers[c.who].call)
  }

  /** Each writer's entries are claimed in the order of its pushes. */
  ghost predicate ClaimsHold(s: Ring) {
    && (forall i :: 0 <= i < |s.claims| ==> ClaimIs(s, s.claims[i]))
    && forall i, j :: 0 <= i < j < |s.claims| && s.claims[i].who == s.claims[j].who ==>
         s.claims[i].call < s.claims[j].call
  }

  /** Every push that returned was delivered, waits to be, or was counted as dropped. */
  predicate Accounted(s: Ring) {
    s.returned == |s.delivered| + |s.ready| + s.dropped + s.taken
  }

  ghost predicate Inv(s: Ring) {
    Ordered(s) && CellsHold(s) && EntriesHold(s) && ReaderHolds(s) && WritersHold(s) && ClaimsHold(s) && Accounted(s)
  }

  // ----- slots of positions -----

  lemma {:induction false} PlacesDiffer(p: nat, q: nat, n: nat)
    requires n > 0 && p < q < p + n
    ensures Place(p, n) != Place(q, n)
  {
    if p >= n {
      PlacesDiffer(p - n, q - n, n);
    }
  }

  /** Two positions that are in the ring together have different slots. */
  lemma SlotsDiffer(s: Ring, p: nat, q: nat)
    requires |s.cells| > 0 && p != q && p < q + |s.cells| && q < p + |s.cells|
    ensures At(s, p) != At(s, q)
  {
    if p < q {
      PlacesDiffer(p, q, |s.cells|);
    } else {
      PlacesDiffer(q, p, |s.cells|);
    }
  }

  lemma SlotsRecur(s: Ring, p: nat)
    requires |s.cells| > 0
    ensures At(s, p + |s.cells|) == At(s, p)
  {
  }

  /** The position from `from` on that has this slot. */
  function CurrentOf(s: Ring, pos: nat, from: nat): (q: nat)
    requires |s.cells| > 0 && pos < from
    ensures from <= q < from + |s.cells| && At(s, q) == At(s, pos)
    decreases from - pos
  {
    SlotsRecur(s, pos);
    if pos + |s.cells| >= from then pos + |s.cells| else CurrentOf(s, pos + |s.cells|, from)
  }

  // ----- every step keeps it -----

  lemma NewIsValid(s: Ring)
    requires IsNew(s)
    ensures Inv(s)
  {
  }

  /** Steps that move a writer on and touch nothing shared. */
  lemma StagedKeeps(s: Ring, who: nat, g: Stage)
    requires Inv(s) && who in s.writers
    requires g.Trying() ==> s.writers[who].stage.Trying()
    requires WriterHolds(s, who, s.writers[who].(stage := g))
    ensures Inv(Staged(s, who, g))
  {
    hide Place;
    var d := Staged(s, who, g);
    assert ClaimsHold(d) by {
      forall i | 0 <= i < |d.claims| ensures ClaimIs(d, d.claims[i]) {
        assert ClaimIs(s, s.claims[i]);
      }
    }
    assert WritersHold(d) by {
      forall id | id in d.writers ensures WriterHolds(d, id, d.writers[id]) {
        assert id != who ==> WriterHolds(s, id, s.writers[id]);
      }
    }
    assert CellsHold(d) by {
      forall p: nat | d.freed <= p < d.freed + |d.cells| ensures CellIs(d, p) {
        assert CellIs(s, p);
      }
    }
  }

  lemma BeginKeeps(s: Ring, who: nat, e: Entry)
    requires Inv(s) && Enabled(s, Begin(who, e))
    ensures Inv(Apply(s, Begin(who, e)))
  {
    hide Place;
    var d := Apply(s, Begin(who, e));
    assert ClaimsHold(d) by {
      forall i | 0 <= i < |d.claims| ensures ClaimIs(d, d.claims[i]) {
        assert ClaimIs(s, s.claims[i]);
      }
    }
    assert WritersHold(d) by {
      forall id | id in d.writers ensures WriterHolds(d, id, d.writers[id]) {
        assert id != who ==> WriterHolds(s, id, s.writers[id]);
      }
    }
    assert CellsHold(d) by {
      forall p: nat | d.freed <= p < d.freed + |d.cells| ensures CellIs(d, p) {
        assert CellIs(s, p);
      }
    }
  }

  /** The slot of the next position to be won has been given back. */
  lemma RoomForClaim(s: Ring, who: nat)
    requires Inv(s) && who in s.writers && s.writers[who].stage.Checked?
    requires s.writers[who].stage.seqNo == s.writers[who].stage.pos == s.write
    ensures s.write < s.freed + |s.cells|
  {
    hide Place;
    assert WriterHolds(s, who, s.writers[who]);
    SlotsRecur(s, s.freed);
    assert CellIs(s, s.freed);
  }

  lemma ClaimKeeps(s: Ring, who: nat)
    requires Inv(s) && Enabled(s, Cas(who, false)) && s.write == s.writers[who].stage.pos
    ensures Inv(Apply(s, Cas(who, false)))
  {
    hide Place;
    RoomForClaim(s, who);
    var d := Apply(s, Cas(who, false));
    assert ClaimsHold(d) by {
      forall i | 0 <= i < |d.claims| ensures ClaimIs(d, d.claims[i]) {
        assert i < |s.claims| ==> ClaimIs(s, s.claims[i]);
      }
      forall i | 0 <= i < |s.claims| && s.claims[i].who == who ensures s.claims[i].call < s.writers[who].call {
        assert ClaimIs(s, s.claims[i]);
      }
    }
    assert WritersHold(d) by {
      forall id | id in d.writers ensures WriterHolds(d, id, d.writers[id]) {
        assert WriterHolds(s, id, s.writers[id]);
      }
    }
    assert CellsHold(d) by {
      forall p: nat | d.freed <= p < d.freed + |d.cells| ensures CellIs(d, p) {
        assert CellIs(s, p);
      }
    }
    assert EntriesHold(d) by {
      forall p | p in d.ready ensures Holding(d, p) {
        assert Holding(s, p);
      }
    }
  }

  /** What owns a position owns its slot alone: no other owner's, and none that is handed over. */
  lemma OwnsAlone(s: Ring, who: nat, pos: nat)
    requires Inv(s) && who in s.writers && s.writers[who].stage.Holds() && s.writers[who].stage.pos == pos
    ensures s.freed <= pos < s.freed + |s.cells|
    ensures forall p: nat :: s.freed <= p < s.freed + |s.cells| && p != pos ==> At(s, p) != At(s, pos)
    ensures forall id :: id in s.writers && id != who && s.writers[id].stage.Holds() ==>
      At(s, s.writers[id].stage.pos) != At(s, pos)
  {
    hide Place;
    assert WriterHolds(s, who, s.writers[who]);
    forall p: nat | s.freed <= p < s.freed + |s.cells| && p != pos ensures At(s, p) != At(s, pos) {
      SlotsDiffer(s, p, pos);
    }
    forall id | id in s.writers && id != who && s.writers[id].stage.Holds()
      ensures At(s, s.writers[id].stage.pos) != At(s, pos)
    {
      assert WriterHolds(s, id, s.writers[id]);
    }
  }

  /** Claims hold on where neither they nor the calls in hand change. */
  lemma ClaimsStay(s: Ring, d: Ring, who: nat, g: Stage)
    requires ClaimsHold(s) && who in s.writers && !g.Trying()
    requires d.claims == s.claims && d.writers == Staged(s, who, g).writers
    ensures ClaimsHold(d)
  {
    forall i | 0 <= i < |d.claims| ensures ClaimIs(d, d.claims[i]) {
      assert ClaimIs(s, s.claims[i]);
    }
  }

  /** A cell rewritten by its owner: what the others rely on is in other slots. */
  predicate Rewritten(s: Ring, d: Ring, who: nat, pos: nat, c: Cell, g: Stage)
    requires |s.cells| > 0
  {
    && who in s.writers && s.writers[who].stage.Holds() && s.writers[who].stage.pos == pos
    && d.cells == s.cells[At(s, pos) := c] && c.seqNo >= s.cells[At(s, pos)].seqNo
    && d.writers == Staged(s, who, g).writers && d.claims == s.claims && d.delivered == s.delivered
    && d.write == s.write && d.freed == s.freed && d.read == s.read && d.reader == s.reader
    && (d.ready == s.ready || d.ready == s.ready + {pos})
  }

  lemma OtherStays(s: Ring, d: Ring, who: nat, pos: nat, c: Cell, g: Stage, id: nat)
    requires Inv(s) && Rewritten(s, d, who, pos, c, g) && id in s.writers && id != who
    ensures WriterHolds(d, id, d.writers[id])
  {
    hide Place;
    var w := s.writers[id];
    assert WriterHolds(s, id, w);
    if w.stage.Holds() {
      OwnsAlone(s, who, pos);
    }
    assert WriterHolds(s, who, s.writers[who]);
    hide CellsHold, EntriesHold, WritersHold, ClaimsHold, Accounted, ReaderHolds;
  }

  lemma OthersStay(s: Ring, d: Ring, who: nat, pos: nat, c: Cell, g: Stage)
    requires Inv(s) && Rewritten(s, d, who, pos, c, g) && WriterHolds(d, who, d.writers[who])
    ensures WritersHold(d)
  {
    forall id | id in d.writers ensures WriterHolds(d, id, d.writers[id]) {
      if id != who {
        OtherStays(s, d, who, pos, c, g, id);
      }
    }
    hide Inv, WriterHolds;
  }

  lemma CellsStay(s: Ring, d: Ring, who: nat, pos: nat, c: Cell, g: Stage)
    requires Inv(s) && Rewritten(s, d, who, pos, c, g) && CellIs(d, pos)
    ensures CellsHold(d)
  {
    hide Place;
    OwnsAlone(s, who, pos);
    forall p: nat | d.freed <= p < d.freed + |d.cells| ensures CellIs(d, p) {
      assert CellIs(s, p);
    }
  }

  lemma EntriesStay(s: Ring, d: Ring, who: nat, pos: nat, c: Cell, g: Stage)
    requires Inv(s) && Rewritten(s, d, who, pos, c, g)
    requires pos in d.ready ==> c.code == s.writers[who].stage.entry.code && c.args == s.writers[who].stage.entry.args
    ensures EntriesHold(d)
  {
    hide Place;
    OwnsAlone(s, who, pos);
    assert WriterHolds(s, who, s.writers[who]);
    forall p | p in d.ready ensures Holding(d, p) {
      assert p != pos ==> Holding(s, p);
    }
  }

  lemma FillRewrites(s: Ring, who: nat, a: Action, c: Cell, g: Stage)
    requires Inv(s) && (a == WriteCode(who) || a == WriteArgs(who)) && Enabled(s, a)
    requires var pos, e := s.writers[who].stage.pos, s.writers[who].stage.entry;
      var was := s.cells[At(s, pos)];
      && c == (if a.WriteCode? then was.(code := e.code) else was.(args := e.args))
      && g == (if a.WriteCode? then HalfWritten(e, pos) else Written(e, pos))
    ensures var d, pos := Apply(s, a), s.writers[who].stage.pos;
      && Rewritten(s, d, who, pos, c, g) && d.ready == s.ready && pos !in s.ready
      && WriterHolds(d, who, d.writers[who]) && CellIs(d, pos)
      && Ordered(d) && ReaderHolds(d) && Accounted(d)
  {
    hide Place;
    var pos := s.writers[who].stage.pos;
    assert WriterHolds(s, who, s.writers[who]);
    assert s.freed <= pos < s.freed + |s.cells|;
    assert CellIs(s, pos);
    hide CellsHold, EntriesHold, WritersHold, ClaimsHold;
  }

  /** An owner writes its half of an entry, and nobody else's changes. */
  lemma FillKeeps(s: Ring, who: nat, a: Action)
    requires Inv(s) && (a == WriteCode(who) || a == WriteArgs(who)) && Enabled(s, a)
    ensures Inv(Apply(s, a))
  {
    hide Place, CellsHold, EntriesHold, WritersHold, ClaimsHold, Rewritten, WriterHolds, CellIs;
    hide Ordered, ReaderHolds, Accounted;
    HasCells(s);
    var pos, e := s.writers[who].stage.pos, s.writers[who].stage.entry;
    var was := s.cells[At(s, pos)];
    var c := if a.WriteCode? then was.(code := e.code) else was.(args := e.args);
    var g := if a.WriteCode? then HalfWritten(e, pos) else Written(e, pos);
    FillRewrites(s, who, a, c, g);
    Rest(s, Apply(s, a), who, pos, c, g);
  }

  lemma HasCells(s: Ring)
    requires Inv(s)
    ensures |s.cells| >= 2
  {
  }

  lemma Rest(s: Ring, d: Ring, who: nat, pos: nat, c: Cell, g: Stage)
    requires Inv(s) && Rewritten(s, d, who, pos, c, g) && !g.Trying()
    requires pos in d.ready ==> c.code == s.writers[who].stage.entry.code && c.args == s.writers[who].stage.entry.args
    requires WriterHolds(d, who, d.writers[who]) && CellIs(d, pos)
    ensures CellsHold(d) && EntriesHold(d) && WritersHold(d) && ClaimsHold(d)
  {
    ClaimsStay(s, d, who, g);
    OthersStay(s, d, who, pos, c, g);
    CellsStay(s, d, who, pos, c, g);
    EntriesStay(s, d, who, pos, c, g);
    hide CellsHold, EntriesHold, WritersHold, ClaimsHold, WriterHolds, CellIs, Place;
  }

  lemma PublishRewrites(s: Ring, who: nat, c: Cell)
    requires Inv(s) && Enabled(s, Publish(who))
    requires c == s.cells[At(s, s.writers[who].stage.pos)].(seqNo := s.writers[who].stage.pos + 1)
    ensures var d, pos := Apply(s, Publish(who)), s.writers[who].stage.pos;
      && Rewritten(s, d, who, pos, c, Idle) && WriterHolds(d, who, d.writers[who]) && CellIs(d, pos)
      && c.code == s.writers[who].stage.entry.code && c.args == s.writers[who].stage.entry.args
      && Ordered(d) && ReaderHolds(d) && Accounted(d)
  {
    hide Place;
    var pos := s.writers[who].stage.pos;
    assert WriterHolds(s, who, s.writers[who]);
    assert s.freed <= pos < s.freed + |s.cells|;
    assert CellIs(s, pos);
    hide CellsHold, EntriesHold, WritersHold, ClaimsHold;
  }

  lemma PublishKeeps(s: Ring, who: nat)
    requires Inv(s) && Enabled(s, Publish(who))
    ensures Inv(Apply(s, Publish(who)))
  {
    hide Place, CellsHold, EntriesHold, WritersHold, ClaimsHold, Rewritten, WriterHolds, CellIs;
    hide Ordered, ReaderHolds, Accounted;
    HasCells(s);
    var pos := s.writers[who].stage.pos;
    var c := s.cells[At(s, pos)].(seqNo := pos + 1);
    PublishRewrites(s, who, c);
    Rest(s, Apply(s, Publish(who)), who, pos, c, Idle);
  }

  // ----- the reader -----

  /** At rest, the reader's slot is complete exactly when its sequence number says so. */
  lemma LookKeeps(s: Ring)
    requires Inv(s) && Enabled(s, Look)
    ensures Inv(Apply(s, Look))
  {
    assert CellIs(s, s.read);
    hide Place;
    SameShared(s, Apply(s, Look));
  }

  /** The parts of the invariant that do not look at the reader. */
  lemma SameShared(s: Ring, d: Ring)
    requires |s.cells| > 0 && CellsHold(s) && EntriesHold(s) && WritersHold(s) && ClaimsHold(s)
    requires d == s.(reader := d.reader, read := d.read, dropped := d.dropped, taken := d.taken, returned := d.returned)
    ensures CellsHold(d) && EntriesHold(d) && WritersHold(d) && ClaimsHold(d)
  {
    hide Place;
    forall p: nat | d.freed <= p < d.freed + |d.cells| ensures CellIs(d, p) {
      assert CellIs(s, p);
    }
    forall p | p in d.ready ensures Holding(d, p) {
      assert Holding(s, p);
    }
    forall id | id in d.writers ensures WriterHolds(d, id, d.writers[id]) {
      assert WriterHolds(s, id, s.writers[id]);
    }
    forall i | 0 <= i < |d.claims| ensures ClaimIs(d, d.claims[i]) {
      assert ClaimIs(s, s.claims[i]);
    }
  }

  lemma ReadCodeKeeps(s: Ring)
    requires Inv(s) && Enabled(s, ReadCode)
    ensures Inv(Apply(s, ReadCode))
  {
    assert Holding(s, s.read);
    SameShared(s, Apply(s, ReadCode));
    hide Place, CellsHold, EntriesHold, WritersHold, ClaimsHold;
  }

  lemma ReadArgsShared(s: Ring, d: Ring)
    requires Inv(s) && Enabled(s, ReadArgs) && d == Apply(s, ReadArgs)
    ensures CellsHold(d) && WritersHold(d) && ClaimsHold(d)
  {
    hide Place;
    forall p: nat | d.freed <= p < d.freed + |d.cells| ensures CellIs(d, p) {
      assert CellIs(s, p);
    }
    forall id | id in d.writers ensures WriterHolds(d, id, d.writers[id]) {
      assert WriterHolds(s, id, s.writers[id]);
    }
    forall i | 0 <= i < |d.claims| ensures ClaimIs(d, d.claims[i]) {
      assert ClaimIs(s, s.claims[i]);
    }
  }

  /** The second half completes the entry that was claimed at this position. */
  lemma ReadArgsKeeps(s: Ring)
    requires Inv(s) && Enabled(s, ReadArgs)
    ensures Inv(Apply(s, ReadArgs))
  {
    hide Place;
    var d := Apply(s, ReadArgs);
    ReadArgsShared(s, d);
    assert Holding(s, s.read);
    forall p | p in d.ready ensures Holding(d, p) {
      assert Holding(s, p);
    }
    assert EntriesHold(d);
    hide CellsHold, EntriesHold, WritersHold, ClaimsHold;
  }

  lemma FreeCells(s: Ring, d: Ring)
    requires Inv(s) && Enabled(s, Free) && d == Apply(s, Free)
    ensures CellsHold(d)
  {
    hide Place;
    SlotsRecur(s, s.read);
    forall p | p in s.ready ensures p < s.write {
      assert Holding(s, p);
    }
    forall p: nat | d.freed <= p < d.freed + |d.cells| ensures CellIs(d, p) {
      if p < s.freed + |s.cells| {
        assert CellIs(s, p);
        SlotsDiffer(s, p, s.read);
      }
    }
  }

  lemma FreeEntries(s: Ring, d: Ring)
    requires Inv(s) && Enabled(s, Free) && d == Apply(s, Free)
    ensures EntriesHold(d) && WritersHold(d) && ClaimsHold(d)
  {
    hide Place;
    assert CellIs(s, s.read);
    forall p | p in d.ready ensures Holding(d, p) {
      assert Holding(s, p);
    }
    forall id | id in d.writers ensures WriterHolds(d, id, d.writers[id]) {
      assert WriterHolds(s, id, s.writers[id]);
    }
    forall i | 0 <= i < |d.claims| ensures ClaimIs(d, d.claims[i]) {
      assert ClaimIs(s, s.claims[i]);
    }
  }

  lemma ReaderKeeps(s: Ring, a: Action)
    requires Inv(s) && Enabled(s, a) && !OfWriter(a)
    ensures Inv(Apply(s, a))
  {
    var d := Apply(s, a);
    match a
    case Look => LookKeeps(s);
    case ReadCode => ReadCodeKeeps(s);
    case ReadArgs => ReadArgsKeeps(s);
    case Free =>
      FreeCells(s, d);
      FreeEntries(s, d);
      hide Place, CellsHold, EntriesHold, WritersHold, ClaimsHold;
    case Advance =>
      SameShared(s, d);
      hide Place, CellsHold, EntriesHold, WritersHold, ClaimsHold;
    case TakeDropped =>
      SameShared(s, d);
      hide Place, CellsHold, EntriesHold, WritersHold, ClaimsHold;
  }

  lemma DropKeeps(s: Ring, who: nat)
    requires Inv(s) && Enabled(s, Drop(who))
    ensures Inv(Apply(s, Drop(who)))
  {
    hide Place, CellsHold, EntriesHold, WritersHold, ClaimsHold;
    StagedKeeps(s, who, Idle);
    var m, d := Staged(s, who, Idle), Apply(s, Drop(who));
    assert d == m.(dropped := m.dropped + 1, returned := m.returned + 1);
    SameShared(m, d);
  }

  lemma WriterKeeps(s: Ring, a: Action)
    requires Inv(s) && Enabled(s, a) && OfWriter(a)
    ensures Inv(Apply(s, a))
  {
    hide CellsHold, EntriesHold, WritersHold, ClaimsHold, WriterHolds, Place;
    var w := s.writers[a.who];
    match a
    case Begin(who, e) => BeginKeeps(s, who, e);
    case Drop(who) => DropKeeps(s, who);
    case WriteCode(who) => FillKeeps(s, who, a);
    case WriteArgs(who) => FillKeeps(s, who, a);
    case Publish(who) => PublishKeeps(s, who);
    case LoadSeq(who) =>
      TriesOn(s, who, Checked(w.stage.entry, w.stage.pos, s.cells[At(s, w.stage.pos)].seqNo));
    case Cas(who, spurious) =>
      if s.write == w.stage.pos && !spurious {
        ClaimKeeps(s, who);
      } else {
        TriesOn(s, who, Loaded(w.stage.entry, s.write));
      }
    case LoadWrite(who) => TriesOn(s, who, Loaded(w.stage.entry, s.write));
    case Reload(who) => TriesOn(s, who, Loaded(w.stage.entry, s.write));
  }

  /** How far the sequence number of a slot can be from a position that was loaded. */
  lemma SequenceIsNear(s: Ring, pos: nat)
    requires Inv(s) && pos <= s.write
    ensures var seqNo := s.cells[At(s, pos)].seqNo;
      && pos <= seqNo + |s.cells|
      && seqNo < s.write + |s.cells|
      && (seqNo < pos <==> pos == s.write == s.freed + |s.cells|)
  {
    hide Place;
    SlotsRecur(s, s.freed);
    assert CellIs(s, s.freed);
    var q := if pos < s.freed then CurrentOf(s, pos, s.freed)
             else if pos < s.freed + |s.cells| then pos else s.freed;
    assert CellIs(s, q);
    forall p | p in s.ready ensures p < s.write {
      assert Holding(s, p);
    }
  }

  /** A writer that keeps trying looks at the ring again. */
  lemma TriesOn(s: Ring, who: nat, g: Stage)
    requires Inv(s) && who in s.writers && s.writers[who].stage.Trying()
    requires g == Loaded(s.writers[who].stage.entry, s.write)
      || (s.writers[who].stage.Loaded?
          && g == Checked(s.writers[who].stage.entry, s.writers[who].stage.pos,
                          s.cells[At(s, s.writers[who].stage.pos)].seqNo))
    ensures Inv(Staged(s, who, g))
  {
    assert WriterHolds(s, who, s.writers[who]);
    if g.Checked? {
      SequenceIsNear(s, g.pos);
    }
    StagedKeeps(s, who, g);
    hide Place, Inv;
  }

  lemma ActionKeeps(s: Ring, a: Action)
    requires Inv(s) && Enabled(s, a)
    ensures Inv(Apply(s, a))
  {
    if OfWriter(a) {
      WriterKeeps(s, a);
    } else {
      ReaderKeeps(s, a);
    }
    hide Inv, Enabled, Apply;
  }

  lemma SameSize(s: Ring, a: Action)
    requires |s.cells| > 0 && Enabled(s, a)
    ensures |Apply(s, a).cells| == |s.cells|
  {
    hide Place;
  }
}
