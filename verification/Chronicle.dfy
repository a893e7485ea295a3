/**
 * Sessions written down beat by beat: what crosses the wire or is called at one
 * moment, and what the drive does with it. Pieces that fit are joined end to end.
 */
module Chronicle {
  import opened HcpTypes
  import opened Hcp2Model
  import opened Traffic
  import opened DriveRuns
  import opened Session
  import opened Orders

  datatype Beat = Beat(at: nat, act: Act, move: Move)

  /** How things stand between two beats: both ends, the clock, and what the drive has been told. */
  datatype Stage = Stage(model: Model, drive: Drive, at: nat, told: seq<(Word, Word)>)

  /** The drive after its move, as a session has it. */
  function Moved(d: Drive, move: Move): Drive {
    match move
    case Poll(fate, asks) =>
      (match fate
       case RequestLost => d
       case AnswerLost => d.(missed := true)
       case Delivered => Drive(if asks then d.counter else Succ(d.counter), asks, false))
    case Transfer(_, _) => d.(counter := Succ(d.counter))
    case Served => d.(counter := Succ(d.counter), serving := false)
    case Other => d
  }

  function Heard(move: Move, answer: seq<Byte>): seq<(Word, Word)> {
    if move.Poll? && move.fate == Delivered then OrderOf(answer) else []
  }

  predicate Fits(g: Stage, b: Beat) {
    && Allowed(b.act) && g.at <= b.at && Reaches(g.drive, b.move, b.act)
    && Moves(g.drive, b.move, After(g.model, Shown(b.at), b.act).1, Moved(g.drive, b.move))
  }

  function Step(g: Stage, b: Beat): Stage {
    if !Allowed(b.act) then g
    else
      var (m, out) := After(g.model, Shown(b.at), b.act);
      Stage(m, Moved(g.drive, b.move), b.at, g.told + Heard(b.move, out))
  }

  function Onto(g: Stage, beats: seq<Beat>): Stage {
    if beats == [] then g else Step(Onto(g, beats[..|beats| - 1]), beats[|beats| - 1])
  }

  predicate AllFit(g: Stage, beats: seq<Beat>) {
    beats != [] ==>
      AllFit(g, beats[..|beats| - 1]) && Fits(Onto(g, beats[..|beats| - 1]), beats[|beats| - 1])
  }

  /** These beats, one fitting behind the other, lead from one stage to the next. */
  predicate Goes(g: Stage, beats: seq<Beat>, g': Stage) {
    AllFit(g, beats) && Onto(g, beats) == g'
  }

  // ----- joining pieces -----

  lemma BeatGoes(g: Stage, b: Beat)
    requires Fits(g, b)
    ensures Goes(g, [b], Step(g, b))
  {
    hide Fits, Step;
    assert [b][..|[b]| - 1] == [];
    assert Onto(g, []) == g && AllFit(g, []);
  }

  lemma {:induction false} GoesOn(g: Stage, a: seq<Beat>, m: Stage, b: seq<Beat>, g': Stage)
    requires Goes(g, a, m) && Goes(m, b, g')
    ensures Goes(g, a + b, g')
    decreases |b|
  {
    hide Fits, Step;
    if b == [] {
      assert a + b == a;
    } else {
      var front := b[..|b| - 1];
      GoesOn(g, a, m, front, Onto(m, front));
      assert (a + b)[..|a + b| - 1] == a + front;
    }
  }

  lemma {:induction false} PrefixFits(g: Stage, beats: seq<Beat>, k: nat)
    requires AllFit(g, beats) && k < |beats|
    ensures AllFit(g, beats[..k]) && Fits(Onto(g, beats[..k]), beats[k])
    ensures Onto(g, beats[..k + 1]) == Step(Onto(g, beats[..k]), beats[k])
    decreases |beats|
  {
    hide Fits, Step;
    assert beats[..k + 1][..k] == beats[..k];
    if k < |beats| - 1 {
      var front := beats[..|beats| - 1];
      PrefixFits(g, front, k);
      assert front[..k] == beats[..k] && front[..k + 1] == beats[..k + 1];
    }
  }

  // ----- the session they make -----

  function Beginning(from: nat): Stage {
    Stage(NEW_MODEL, Drive(1, false, false), from, [])
  }

  ghost function SessionOf(from: nat, beats: seq<Beat>): Session {
    var n := |beats|;
    Session(Recording(seq(n + 1, k requires 0 <= k <= n => Onto(Beginning(from), beats[..k]).model),
                      seq(n, k requires 0 <= k < n => beats[k].act), seq(n, k requires 0 <= k < n => beats[k].at)),
            seq(n, k requires 0 <= k < n => beats[k].move),
            seq(n + 1, k requires 0 <= k <= n => Onto(Beginning(from), beats[..k]).drive))
  }

  lemma {:induction false} NeverBack(from: nat, beats: seq<Beat>, i: nat, j: nat)
    requires AllFit(Beginning(from), beats) && i < j < |beats|
    ensures beats[i].at <= beats[j].at
    decreases j
  {
    PrefixFits(Beginning(from), beats, j);
    PrefixFits(Beginning(from), beats, j - 1);
    hide AllFit, Onto, Reaches, Moves, After, Moved;
    if i < j - 1 {
      NeverBack(from, beats, i, j - 1);
    }
  }

  lemma SessionHas(from: nat, beats: seq<Beat>, k: nat)
    requires k < |beats|
    ensures var s, g, g' := SessionOf(from, beats),
        Onto(Beginning(from), beats[..k]), Onto(Beginning(from), beats[..k + 1]);
      && |s.tape.models| == |s.drives| == |beats| + 1 && |s.tape.acts| == |s.tape.times| == |s.moves| == |beats|
      && s.tape.models[k] == g.model && s.tape.models[k + 1] == g'.model
      && s.drives[k] == g.drive && s.drives[k + 1] == g'.drive
      && s.tape.acts[k] == beats[k].act && s.tape.times[k] == beats[k].at && s.moves[k] == beats[k].move
  {
    hide Onto;
  }

  /** One beat, as a step of a session. */
  ghost predicate Keeps(s: Session, k: nat)
    requires k < |s.moves| == |s.tape.acts| == |s.tape.times| && |s.tape.models| == |s.drives| == |s.moves| + 1
  {
    && Follows(s.tape, k) && Reaches(s.drives[k], s.moves[k], s.tape.acts[k])
    && Moves(s.drives[k], s.moves[k],
             After(s.tape.models[k], Shown(s.tape.times[k]), s.tape.acts[k]).1, s.drives[k + 1])
  }

  lemma FitsKeeps(g: Stage, b: Beat, s: Session, k: nat)
    requires k < |s.moves| == |s.tape.acts| == |s.tape.times| && |s.tape.models| == |s.drives| == |s.moves| + 1
    requires Fits(g, b) && s.tape.models[k] == g.model && s.tape.models[k + 1] == Step(g, b).model
    requires s.drives[k] == g.drive && s.drives[k + 1] == Step(g, b).drive
    requires s.tape.acts[k] == b.act && s.tape.times[k] == b.at && s.moves[k] == b.move
    ensures Keeps(s, k)
  {
    hide After, Reaches, Moves, Moved, OrderOf;
  }

  lemma BeatIsKept(from: nat, beats: seq<Beat>, k: nat)
    requires AllFit(Beginning(from), beats) && k < |beats|
    ensures var s := SessionOf(from, beats);
      && |s.tape.models| == |s.drives| == |beats| + 1 && |s.tape.acts| == |s.tape.times| == |s.moves| == |beats|
      && Keeps(s, k)
  {
    hide *;
    SessionHas(from, beats, k);
    PrefixFits(Beginning(from), beats, k);
    FitsKeeps(Onto(Beginning(from), beats[..k]), beats[k], SessionOf(from, beats), k);
  }

  lemma BeatsAreRecorded(from: nat, beats: seq<Beat>)
    requires AllFit(Beginning(from), beats)
    ensures IsRecording(SessionOf(from, beats).tape) && SessionOf(from, beats).drives[0] == Beginning(from).drive
  {
    hide AllFit, Onto, Reaches, Moves, After, Follows;
    var t := SessionOf(from, beats).tape;
    NothingYet(from, beats);
    forall i, j | 0 <= i < j < |beats| ensures t.times[i] <= t.times[j] {
      NeverBack(from, beats, i, j);
    }
    forall k | 0 <= k < |beats| ensures Follows(t, k) {
      BeatIsKept(from, beats, k);
    }
  }

  /** Beats that fit from the very beginning are a session. */
  lemma {:induction false} BeatsAreASession(from: nat, beats: seq<Beat>)
    requires AllFit(Beginning(from), beats)
    ensures IsSession(SessionOf(from, beats))
  {
    hide AllFit, Onto, Reaches, Moves, After, Follows, IsRecording;
    var s := SessionOf(from, beats);
    BeatsAreRecorded(from, beats);
    forall k | 0 <= k < |s.moves|
      ensures Reaches(s.drives[k], s.moves[k], s.tape.acts[k])
      ensures Moves(s.drives[k], s.moves[k], AnswerAt(s.tape, k), s.drives[k + 1])
    {
      BeatIsKept(from, beats, k);
    }
  }

  lemma NothingYet(from: nat, beats: seq<Beat>)
    ensures Onto(Beginning(from), beats[..0]) == Beginning(from)
  {
  }

  /** What the drive has been told along the beats is what it obeys in that session. */
  lemma {:induction false} ToldIsOrders(from: nat, beats: seq<Beat>, k: nat)
    requires AllFit(Beginning(from), beats) && k <= |beats|
    ensures IsSession(SessionOf(from, beats))
    ensures OrdersIn(SessionOf(from, beats), k) == Onto(Beginning(from), beats[..k]).told
  {
    BeatsAreASession(from, beats);
    hide AllFit, Onto, IsSession, Moved, Reaches, Moves, After, OrderOf;
    if k == 0 {
      NothingYet(from, beats);
    } else {
      ToldIsOrders(from, beats, k - 1);
      PrefixFits(Beginning(from), beats, k - 1);
    }
  }
}
