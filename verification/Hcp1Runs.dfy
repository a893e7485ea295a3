/** The older bus over whole runs: what is answered, and how often a press goes out. */
module Hcp1Runs {
  import opened HcpTypes
  import opened Hcp1Frame
  import opened Hcp1Model

  datatype Act =
    | OnWire(raw: seq<Byte>)
    | Press(cmd: Command)
    | Light(on: bool)
    | GoTo(percent: int)
    | StopPress
    | Watchdog

  function After(b: Bus1, now: Millis, act: Act): (Bus1, seq<Byte>) {
    match act
    case OnWire(raw) => b.OnFrame(now, raw)
    case Press(cmd) => (b.Submit(now, cmd), [])
    case Light(on) => (b.TurnLight(now, on), [])
    case GoTo(percent) => (b.SetPosition(now, percent), [])
    case StopPress => (b.StopDoor(now), [])
    case Watchdog => (b.CheckSilence(now), [])
  }

  // ----- what is answered -----

  /** The frame asks us for our type, or for our status. */
  predicate Asks(raw: seq<Byte>, what: Byte) {
    Parse(raw).Some? && AsksIn(Parse(raw).value, what)
  }

  function Reply(raw: seq<Byte>, data: seq<Byte>): Option<Frame> {
    match Parse(raw)
    case None => None
    case Some(f) => Some(Frame(HCP1_ADDR_MASTER, (f.counter + 1) % 16, data))
  }

  /**
   * Only a frame addressed to us is answered: a scan always, a status request only
   * once addressed. The answer parses back as one to the drive, counting one on.
   */
  lemma AnsweredIff(b: Bus1, now: Millis, raw: seq<Byte>)
    ensures b.OnFrame(now, raw).1 != [] <==>
      Asks(raw, HCP1_CMD_SCAN) || (Asks(raw, HCP1_CMD_STATUS_REQUEST) && b.addressed)
    ensures var out := b.OnFrame(now, raw).1;
      out != [] ==>
        Parse(out) == Reply(raw, if Asks(raw, HCP1_CMD_SCAN) then [HCP1_TYPE_UAP1, HCP1_ADDR_SELF]
          else [HCP1_CMD_STATUS_RESPONSE, CommandByte(b.Heard(now).Tells(now)), HCP1_S0_HEALTHY])
  {
    hide Bus1.OnParsed, Bus1.Heard, Bus1.Tells, CommandByte, Parse, Built;
    if Parse(raw).Some? {
      var f, h := Parse(raw).value, b.Heard(now);
      HeardKeeps(b, now);
      AnswerTo(h, now, f);
      var data := h.OnParsed(now, f).1;
      if data.Some? {
        ParseUndoesBuilt(HCP1_ADDR_MASTER, NextCounter(f.counter), data.value);
      }
    }
  }

  predicate AsksIn(f: Frame, what: Byte) {
    f.address == HCP1_ADDR_SELF && |f.data| >= 1 && f.data[0] == what
  }

  lemma AnswerTo(b: Bus1, now: Millis, f: Frame)
    ensures var data := b.OnParsed(now, f).1;
      if AsksIn(f, HCP1_CMD_SCAN) then data == Some([HCP1_TYPE_UAP1, HCP1_ADDR_SELF])
      else if AsksIn(f, HCP1_CMD_STATUS_REQUEST) && b.addressed
      then data == Some([HCP1_CMD_STATUS_RESPONSE, CommandByte(b.Tells(now)), HCP1_S0_HEALTHY])
      else data == None
  {
    hide Bus1.Status, Bus1.ApplyBroadcast, Bus1.Tells, CommandByte;
    LinkTells(b, now);
  }

  lemma HeardKeeps(b: Bus1, now: Millis)
    ensures b.Heard(now).addressed == b.addressed && b.Heard(now).pending == b.pending
    ensures b.Heard(now).pendingAt == b.pendingAt && b.Heard(now).door.state == b.door.state
  {
  }

  lemma LinkTells(b: Bus1, now: Millis)
    ensures b.(door := b.door.SetLink(Registered)).Tells(now) == b.Tells(now)
  {
  }

  // ----- what one step does to the slot and the address -----

  /** The command this act puts into the slot, if it is accepted. */
  function Filled(b: Bus1, act: Act): Option<Command> {
    match act
    case Press(cmd) => if b.Takes(cmd) then Some(cmd) else None
    case Light(on) => if on != b.door.lightOn && b.Takes(b.LightCommand(on)) then Some(b.LightCommand(on)) else None
    case GoTo(percent) =>
      if b.Takes(b.PositionCommand(percent)) then Some(b.PositionCommand(percent)) else None
    case StopPress => if b.addressed then Some(Stop) else None
    case _ => None
  }

  /** What the answer to this act tells the drive to do, or nothing. */
  function Told(b: Bus1, now: Millis, act: Act): Command {
    if act.OnWire? && Asks(act.raw, HCP1_CMD_STATUS_REQUEST) && b.addressed then b.Tells(now) else NoCommand
  }

  lemma FrameStep(b: Bus1, now: Millis, raw: seq<Byte>)
    ensures var d := b.OnFrame(now, raw).0;
      && d.addressed == (b.addressed || Asks(raw, HCP1_CMD_SCAN))
      && d.pendingAt == b.pendingAt
      && d.pending == (if Asks(raw, HCP1_CMD_STATUS_REQUEST) && b.addressed then NoCommand else b.pending)
  {
    hide Parse, Built, Bus1.Heard, Elapsed;
    HeardKeeps(b, now);
  }

  lemma StepSlot(b: Bus1, now: Millis, act: Act)
    ensures var d := After(b, now, act).0;
      && d.addressed == (if act.Watchdog? && b.Gone(now) then false
                         else b.addressed || (act.OnWire? && Asks(act.raw, HCP1_CMD_SCAN)))
      && (match Filled(b, act)
          case Some(cmd) => d.pending == cmd && d.pendingAt == now
          case None => d.pendingAt == b.pendingAt && (d.pending == b.pending || d.pending == NoCommand))
      && (Told(b, now, act) != NoCommand ==> d.pending == NoCommand)
  {
    if act.OnWire? {
      FrameStep(b, now, act.raw);
      hide Bus1.OnFrame;
    } else {
      hide Elapsed, Bus1.OnFrame;
    }
  }

  // ----- runs -----

  datatype Recording = Recording(states: seq<Bus1>, acts: seq<Act>, times: seq<nat>)

  ghost predicate IsRecording(r: Recording) {
    && |r.states| == |r.acts| + 1 == |r.times| + 1
    && r.states[0] == NEW_BUS
    && (forall i, j :: 0 <= i < j < |r.times| ==> r.times[i] <= r.times[j])
    && forall k :: 0 <= k < |r.acts| ==> Follows(r, k)
  }

  ghost predicate Follows(r: Recording, k: nat)
    requires k < |r.acts| == |r.times| == |r.states| - 1
  {
    r.states[k + 1] == After(r.states[k], Shown(r.times[k]), r.acts[k]).0
  }

  ghost function FilledAt(r: Recording, k: nat): Option<Command>
    requires IsRecording(r) && k < |r.acts|
  {
    Filled(r.states[k], r.acts[k])
  }

  ghost function ToldAt(r: Recording, k: nat): Command
    requires IsRecording(r) && k < |r.acts|
  {
    Told(r.states[k], Shown(r.times[k]), r.acts[k])
  }

  /** The last accepted call before step `k`, or -1. */
  ghost function LastFill(r: Recording, k: nat): (f: int)
    requires IsRecording(r) && k < |r.states|
    ensures -1 <= f < k
  {
    if k == 0 then -1 else if FilledAt(r, k - 1).Some? then k - 1 else LastFill(r, k - 1)
  }

  /** A scan reached us at step `k`. */
  ghost predicate ScannedAt(r: Recording, k: nat)
    requires IsRecording(r) && k < |r.acts|
  {
    r.acts[k].OnWire? && Asks(r.acts[k].raw, HCP1_CMD_SCAN)
  }

  /** The bus was found silent at step `k`. */
  ghost predicate SilentAt(r: Recording, k: nat)
    requires IsRecording(r) && k < |r.acts|
  {
    r.acts[k].Watchdog? && r.states[k].Gone(Shown(r.times[k]))
  }

  ghost predicate Invited(r: Recording, k: nat)
    requires IsRecording(r) && k < |r.states|
  {
    exists i :: 0 <= i < k && ScannedAt(r, i) && forall j :: i < j < k ==> !SilentAt(r, j)
  }

  /** We are addressed exactly when a scan came and no silence has been detected since. */
  lemma {:induction false} AddressedIff(r: Recording, k: nat)
    requires IsRecording(r) && k < |r.states|
    ensures r.states[k].addressed <==> Invited(r, k)
  {
    if k > 0 {
      AddressedIff(r, k - 1);
      assert Follows(r, k - 1);
      StepSlot(r.states[k - 1], Shown(r.times[k - 1]), r.acts[k - 1]);
      InvitedStep(r, k);
      hide After, Invited, Filled, Told;
    }
  }

  lemma InvitedStep(r: Recording, k: nat)
    requires IsRecording(r) && 0 < k < |r.states|
    ensures Invited(r, k) <==> if SilentAt(r, k - 1) then false else Invited(r, k - 1) || ScannedAt(r, k - 1)
  {
    hide Follows, ScannedAt, SilentAt;
    if SilentAt(r, k - 1) {
      NotBoth(r, k - 1);
    } else if Invited(r, k - 1) {
      var i :| 0 <= i < k - 1 && ScannedAt(r, i) && forall j :: i < j < k - 1 ==> !SilentAt(r, j);
      assert forall j :: i < j < k ==> !SilentAt(r, j);
    }
  }

  lemma NotBoth(r: Recording, k: nat)
    requires IsRecording(r) && k < |r.acts|
    ensures !(ScannedAt(r, k) && SilentAt(r, k))
  {
  }

  ghost function AnswerAt(r: Recording, k: nat): seq<Byte>
    requires IsRecording(r) && k < |r.acts|
  {
    After(r.states[k], Shown(r.times[k]), r.acts[k]).1
  }

  /**
   * Over every run: nothing but a frame addressed to us is answered, every answer
   * goes to the drive and counts one past what it asked with, and no status request
   * is answered before a scan, or between detected silence and the next scan.
   */
  lemma AnswersAreInvited(r: Recording, k: nat)
    requires IsRecording(r) && k < |r.acts| && AnswerAt(r, k) != []
    ensures r.acts[k].OnWire? && Parse(r.acts[k].raw).Some?
    ensures Parse(AnswerAt(r, k)).Some?
    ensures var f, g := Parse(r.acts[k].raw).value, Parse(AnswerAt(r, k)).value;
      && f.address == HCP1_ADDR_SELF && g.address == HCP1_ADDR_MASTER && g.counter == (f.counter + 1) % 16
    ensures Asks(r.acts[k].raw, HCP1_CMD_SCAN) || (Asks(r.acts[k].raw, HCP1_CMD_STATUS_REQUEST) && Invited(r, k))
  {
    AddressedIff(r, k);
    if r.acts[k].OnWire? {
      AnsweredIff(r.states[k], Shown(r.times[k]), r.acts[k].raw);
    }
    hide Bus1.OnFrame, Parse, Invited, CommandByte;
  }

  /** A command in the slot is the one the last accepted call put there, stamped with that call's time. */
  lemma {:induction false} SlotHolds(r: Recording, k: nat)
    requires IsRecording(r) && k < |r.states|
    ensures r.states[k].pending != NoCommand ==>
      var f := LastFill(r, k);
      && f >= 0 && FilledAt(r, f) == Some(r.states[k].pending) && r.states[k].pendingAt == Shown(r.times[f])
      && forall j :: f < j < k ==> ToldAt(r, j) == NoCommand
  {
    hide Filled, After, Told;
    if k > 0 {
      SlotHolds(r, k - 1);
      assert Follows(r, k - 1);
      StepSlot(r.states[k - 1], Shown(r.times[k - 1]), r.acts[k - 1]);
    }
  }

  lemma TellsWhatIsPending(b: Bus1, now: Millis)
    requires b.Tells(now) != NoCommand
    ensures b.pending != NoCommand && Elapsed(now, b.pendingAt) <= CMD_STALE_MS
    ensures b.Tells(now) == (if b.pending == Stop then Impulse else b.pending)
    ensures b.pending == Stop ==> IsMoving(b.door.state)
  {
  }

  /**
   * Every command told is the last one accepted, told for the first time since it
   * was, and at most `CMD_STALE_MS` after it, whatever the clock wraps to. So no
   * press goes out twice, and refused taps make none last longer.
   */
  lemma {:induction false} ToldOnceAndInTime(r: Recording, k: nat)
    requires IsRecording(r) && k < |r.acts| && ToldAt(r, k) != NoCommand
    ensures var f := LastFill(r, k);
      && f >= 0 && FilledAt(r, f).Some?
      && ToldAt(r, k) == (if FilledAt(r, f).value == Stop then Impulse else FilledAt(r, f).value)
      && (FilledAt(r, f).value == Stop ==> IsMoving(r.states[k].door.state))
      && (forall j :: f < j < k ==> ToldAt(r, j) == NoCommand)
      && (r.times[k] - r.times[f] <= CMD_STALE_MS || r.times[k] - r.times[f] >= CLOCK_SPAN)
  {
    SlotHolds(r, k);
    TellsWhatIsPending(r.states[k], Shown(r.times[k]));
    ElapsedIsReal(r.times[k], r.times[LastFill(r, k)]);
    hide Bus1.Tells, Filled, Asks, Elapsed;
  }

  /** What the drive reads out of a status answer. */
  function DoByte(out: seq<Byte>): Byte {
    match Parse(out)
    case None => 0
    case Some(f) => if |f.data| == 3 && f.data[0] == HCP1_CMD_STATUS_RESPONSE then f.data[1] else 0
  }

  /** On the wire: the byte the drive obeys is the command told, and no answer besides carries one. */
  lemma ObeyedIsTold(r: Recording, k: nat)
    requires IsRecording(r) && k < |r.acts|
    ensures DoByte(AnswerAt(r, k)) == CommandByte(ToldAt(r, k))
  {
    if r.acts[k].OnWire? {
      AnsweredIff(r.states[k], Shown(r.times[k]), r.acts[k].raw);
      HeardTells(r.states[k], Shown(r.times[k]));
    }
    assert Parse([]) == None;
    hide Bus1.OnFrame, Parse, Bus1.Tells, Bus1.Heard;
  }

  lemma HeardTells(b: Bus1, now: Millis)
    ensures b.Heard(now).Tells(now) == b.Tells(now)
  {
    hide Elapsed, CommandByte;
  }
}
