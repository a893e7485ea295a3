/**
 * The loop of the component: it empties the log, hands over what the bus task
 * has put together, looks at the silence, and calls back when the door has
 * changed. Nothing about the door changes without the flag that makes it do so.
 */
module HcpBridge {
  import opened HcpTypes
  import opened HcpState
  import opened Lifecycle
  import opened Hcp2Frame
  import opened Hcp2Model
  import opened Hcp2Codec
  import opened Replies
  import Runs
  import opened Traffic

  // ----- nothing changes unflagged -----

  predicate Flagged(c: Core, d: Core) {
    d.door.changed || d.door == c.door
  }

  lemma SyncFlags(c: Core, counterByte: Byte, command: Byte)
    ensures Flagged(c, c.SyncCounter(counterByte, command).ForgetSent())
  {
  }

  lemma ReadyFlags(c: Core, now: Millis)
    ensures Flagged(c, c.Ready(now).TakeStop())
  {
    hide Elapsed, Core.TookEffect;
    assert Flagged(c, c.CheckEffect(now));
    hide Core.CheckEffect;
  }

  lemma PollFlags(c: Core, now: Millis)
    ensures Flagged(c, c.Poll(now))
  {
    ReadyFlags(c, now);
    hide Core.Ready, Core.TakeStop, Core.Choose;
  }

  lemma RideAlongFlags(m: Model, now: Millis)
    ensures Flagged(m.core, m.RideAlong(now).core)
  {
    hide CommandValues, Ident.Asks, Ident.Ask, Ident.GivesUp;
  }

  lemma StatusPollFlags(m: Model, now: Millis)
    ensures Flagged(m.core, m.StatusPoll(now).core)
  {
    hide Core.Poll, Model.RideAlong;
    PollFlags(m.core, now);
    RideAlongFlags(m.(core := m.core.Poll(now)), now);
  }

  lemma HookFlags(m: Model, now: Millis, readCnt: nat, writeCnt: nat, command: Byte)
    ensures Flagged(m.core, m.Hook(now, readCnt, writeCnt, command).core)
  {
    hide Model.StatusPoll, Core.LinkUp, Flagged;
    StatusPollFlags(m, now);
    LinkUpFlags(m.core, [EmptyCommand]);
    LinkUpFlags(m.core, [BusScan]);
    LinkUpFlags(m.core, [UnanswerableFrame(readCnt, writeCnt)]);
    LinkUpFlags(m.core, []);
  }

  lemma LinkUpFlags(c: Core, noted: seq<Event>)
    ensures Flagged(c, c.(log := c.log + noted).LinkUp())
    ensures noted == [] ==> Flagged(c, c.LinkUp())
  {
    assert c.log + [] == c.log;
  }

  lemma AppliedFlags(m: Model, now: Millis, words: seq<Word>)
    requires 1 <= |words| <= 9
    ensures Flagged(m.core, m.Applied(now, words).core)
  {
    CompleteAlike(m.WriteCmds(words), now, |words|);
    hide OrWord, Model.BlockComplete;
  }

  lemma ExchangeFlags(m: Model, now: Millis, readCnt: nat, words: seq<Word>)
    requires 1 <= |words| <= 9
    ensures Flagged(m.core, m.Exchange(now, readCnt, words).core)
  {
    hide Core.SyncCounter, Model.Hook, Model.Applied;
    var counterByte, command := words[0] / 0x100, words[0] % 0x100;
    var a := m.(core := m.core.SyncCounter(counterByte, command).ForgetSent());
    SyncFlags(m.core, counterByte, command);
    HookFlags(a, now, readCnt, |words|, command);
    AppliedFlags(a.Hook(now, readCnt, |words|, command), now, words);
  }

  lemma RegisterFlags(c: Core, i: nat, val: Word)
    requires i < 9
    ensures Flagged(c, c.WriteBcast(i, val))
  {
  }

  lemma {:induction false} RegistersFlag(c: Core, words: seq<Word>, i: nat)
    requires i <= |words| <= 9
    ensures Flagged(c, c.WriteFrom(words, i))
    decreases |words| - i
  {
    if i < |words| {
      RegisterFlags(c, i, words[i]);
      hide Core.WriteBcast;
      RegistersFlag(c.WriteBcast(i, words[i]), words, i + 1);
    }
  }

  lemma ReportFlags(c: Core, now: Millis, words: seq<Word>)
    requires |words| <= 9
    ensures Flagged(c, c.Report(now, words))
  {
    RegistersFlag(c.LinkUp(), words, 0);
    hide Core.WriteFrom;
  }

  lemma FrameFlags(m: Model, now: Millis, raw: seq<Byte>)
    ensures Flagged(m.core, m.OnFrame(now, raw).0.core)
  {
    hide Model.Exchange, Core.Report, Validate, CountsAgree, Finished;
    var h := m.(core := m.core.Heard(now));
    if Answerable(raw) {
      AnswerableIsChecked(raw);
      ExchangeFlags(h, now, Rd16(raw, 4), Registers(raw, 11, Rd16(raw, 8)));
    } else if Applies(raw) {
      ReportFlags(h.core, now, Registers(raw, 7, Rd16(raw, 4)));
    } else if Accepted(raw) && raw[0] != 0 && raw[1] == 0x17 {
      AnswerableIsChecked(raw);
    }
  }

  lemma CallFlags(c: Core, now: Millis, input: Runs.Input)
    requires IsCall(input)
    ensures Flagged(c, Runs.Next(c, now, input))
  {
  }

  lemma WatchdogFlags(c: Core, now: Millis)
    ensures Flagged(c, c.CheckSilence(now))
  {
    hide Elapsed;
  }

  lemma PublishFlags(m: Model)
    ensures Flagged(m.core, m.PublishIdentity().core)
  {
    hide Cut;
  }

  /** Whatever comes over the bus or from the loop either leaves the door as it was or raises the flag. */
  lemma {:induction false} NothingChangesUnflagged(m: Model, now: Millis, act: Act)
    requires Allowed(act)
    ensures Flagged(m.core, After(m, now, act).0.core)
  {
    hide Model.OnFrame, Runs.Next, Model.PublishIdentity, Core.CheckSilence;
    match act
    case Frame(raw) => FrameFlags(m, now, raw);
    case Call(input) => CallFlags(m.core, now, input);
    case Watchdog => WatchdogFlags(m.core, now);
    case Publish => PublishFlags(m);
  }

  // ----- the loop -----

  /** What can be read off the door; the flag itself is nobody's reading. */
  function Readable(d: Door): Door {
    d.(changed := false)
  }

  /** What the last callback read is how the door is, or the flag says that it is not. */
  predicate UpToDate(d: Door, seen: Door) {
    d.changed || Readable(d) == seen
  }

  /** Between two updates nothing that happens goes unnoticed. */
  lemma StaysUpToDate(m: Model, now: Millis, act: Act, seen: Door)
    requires Allowed(act) && UpToDate(m.core.door, seen)
    ensures UpToDate(After(m, now, act).0.core.door, seen)
  {
    hide After;
    NothingChangesUnflagged(m, now, act);
  }

  /** The codec beside what the callback read last. */
  datatype Watched = Watched(model: Model, seen: Door)
  {
    /** One turn of the loop, its log taken and its callback run. */
    function Updated(now: Millis): Watched {
      var n := model.(core := model.core.(log := [])).PublishIdentity();
      var c := n.core.CheckSilence(now);
      Watched(n.(core := c.(door := Readable(c.door))), if c.door.changed then Readable(c.door) else seen)
    }

    function Takes(turn: Turn): Watched {
      match turn
      case Happens(now, act) => if Allowed(act) then this.(model := After(model, now, act).0) else this
      case Update(now) => Updated(now)
    }

    function TakesAll(turns: seq<Turn>): Watched {
      if turns == [] then this else TakesAll(turns[..|turns| - 1]).Takes(turns[|turns| - 1])
    }
  }

  /** What the bus or a caller does, and the loop coming round. */
  datatype Turn = Happens(now: Millis, act: Act) | Update(now: Millis)

  const FIRST := Watched(NEW_MODEL, NEW_DOOR)

  lemma UpdateIsUpToDate(w: Watched, now: Millis)
    requires UpToDate(w.model.core.door, w.seen)
    ensures var u := w.Updated(now); !u.model.core.door.changed && u.seen == u.model.core.door
  {
    hide Model.PublishIdentity, Core.CheckSilence;
    var n := w.model.(core := w.model.core.(log := [])).PublishIdentity();
    PublishFlags(w.model.(core := w.model.core.(log := [])));
    WatchdogFlags(n.core, now);
  }

  /**
   * Over any history of frames, calls and turns of the loop, whatever their order:
   * where no flag is up, what the callback read last is the door as it is.
   */
  lemma {:induction false} NothingIsMissed(turns: seq<Turn>)
    ensures var w := FIRST.TakesAll(turns); UpToDate(w.model.core.door, w.seen)
    ensures turns != [] && turns[|turns| - 1].Update? ==>
      var w := FIRST.TakesAll(turns); !w.model.core.door.changed && w.seen == w.model.core.door
  {
    hide UpToDate, Watched.Updated, After;
    if turns == [] {
      FirstIsUpToDate();
    } else {
      var w, turn := FIRST.TakesAll(turns[..|turns| - 1]), turns[|turns| - 1];
      NothingIsMissed(turns[..|turns| - 1]);
      match turn
      case Happens(now, act) =>
        if Allowed(act) {
          StaysUpToDate(w.model, now, act, w.seen);
        }
      case Update(now) =>
        UpdateIsUpToDate(w, now);
        SeenIsUpToDate(w.Updated(now));
    }
  }

  lemma FirstIsUpToDate()
    ensures UpToDate(FIRST.model.core.door, FIRST.seen)
  {
  }

  lemma SeenIsUpToDate(w: Watched)
    requires !w.model.core.door.changed && w.seen == w.model.core.door
    ensures UpToDate(w.model.core.door, w.seen)
  {
  }

  class Bridge {
    const engine: Hcp2Codec
    // what the last callback read
    var seen: Door

    ghost predicate Valid()
      reads this, engine, engine.state
    {
      engine.Valid() && UpToDate(engine.CoreView().door, seen)
    }

    ghost function View(): Watched
      requires engine.Valid()
      reads this, engine, engine.state, engine.regCmd, engine.regResp
    {
      Watched(engine.View(), seen)
    }

    constructor ()
      ensures Valid() && View() == FIRST
    {
      engine := new Hcp2Codec();
      seen := NEW_DOOR;
    }

    method DrainEvents() returns (lines: seq<Event>)
      requires engine.Valid()
      modifies engine
      ensures engine.Valid() && lines == old(engine.CoreView().log)
      ensures engine.View() == old(engine.View()).(core := old(engine.CoreView()).(log := []))
    {
      lines := engine.events;
      engine.events := [];
    }

    /**
     * One turn of the loop. Afterwards the callback has read the door as it is, and
     * it was called only where something had changed.
     */
    method Update(now: Millis) returns (lines: seq<Event>, called: bool)
      requires Valid()
      modifies this, engine, engine.state
      ensures Valid() && lines == old(engine.CoreView().log)
      ensures View() == old(View()).Updated(now)
      ensures seen == engine.CoreView().door && !engine.CoreView().door.changed
      ensures !called ==> seen == old(seen)
      ensures called == old(engine.View()).(core := old(engine.CoreView()).(log := []))
        .PublishIdentity().core.CheckSilence(now).door.changed
    {
      hide Model.PublishIdentity, Core.CheckSilence;
      lines := DrainEvents();
      ghost var m := engine.View();
      PublishFlags(m);
      engine.PublishIdentity();
      WatchdogFlags(engine.CoreView(), now);
      engine.CheckBusSilence(now);
      called := engine.state.changed;
      if called {
        engine.state.ClearChanged();
        seen := Read();
      }
    }

    method Read() returns (d: Door)
      ensures d == engine.state.View()
    {
      var s := engine.state;
      d := Door(s.targetPosition, s.currentPosition, s.gotoPosition, s.lightOn, s.relayOn, s.actuatorError,
                s.state, s.link, s.valid, s.serialNumber, s.firmwareVersion, s.changed);
    }
  }
}
