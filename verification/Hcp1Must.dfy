/**
 * The older bus: what has to be told, shown and noticed, told from the history
 * alone. Each is exact over every run.
 */
module Hcp1Must {
  import opened HcpTypes
  import opened Hcp1Frame
  import opened Hcp1Model
  import opened Hcp1Runs

  // ----- a press is told -----

  /** A status request is answered at step `k`. */
  ghost predicate Answers(r: Recording, k: nat)
    requires IsRecording(r) && k < |r.acts|
  {
    r.acts[k].OnWire? && Asks(r.acts[k].raw, 0x20) && Invited(r, k)
  }

  /** The accepted call whose command waits before step `k`: none where one was answered or silence found since. */
  ghost function Queue(r: Recording, k: nat): (q: Option<nat>)
    requires IsRecording(r) && k < |r.states|
    ensures q.Some? ==> q.value < k && FilledAt(r, q.value).Some?
  {
    if k == 0 then None
    else if FilledAt(r, k - 1).Some? then Some(k - 1)
    else if Answers(r, k - 1) || SilentAt(r, k - 1) then None
    else Queue(r, k - 1)
  }

  ghost function Waiting(r: Recording, k: nat): Command
    requires IsRecording(r) && k < |r.states|
  {
    match Queue(r, k)
    case None => NoCommand
    case Some(f) => FilledAt(r, f).value
  }

  /** What one step does to the slot. */
  lemma StepQueue(b: Bus1, now: Millis, act: Act)
    ensures var d := After(b, now, act).0;
      match Filled(b, act)
      case Some(cmd) => d.pending == cmd && d.pendingAt == now
      case None =>
        if (act.OnWire? && Asks(act.raw, 0x20) && b.addressed) || (act.Watchdog? && b.Gone(now))
        then d.pending == NoCommand else d.pending == b.pending && d.pendingAt == b.pendingAt
  {
    if act.OnWire? {
      FrameStep(b, now, act.raw);
      hide Bus1.OnFrame;
    } else {
      hide Elapsed, Bus1.OnFrame;
    }
  }

  lemma {:induction false} QueueIs(r: Recording, k: nat)
    requires IsRecording(r) && k < |r.states|
    ensures r.states[k].pending == Waiting(r, k)
    ensures Queue(r, k).Some? ==> r.states[k].pendingAt == Shown(r.times[Queue(r, k).value])
  {
    hide Filled, After, Asks, Invited;
    if k > 0 {
      QueueIs(r, k - 1);
      AddressedIff(r, k - 1);
      assert Follows(r, k - 1);
      StepQueue(r.states[k - 1], Shown(r.times[k - 1]), r.acts[k - 1]);
    }
  }

  /** What a call comes to on this bus: a stop is an impulse for a moving door and nothing for any other. */
  function Comes(cmd: Command, state: DoorState): Command {
    if cmd == Stop then
      (if state == Opening || state == Closing || state == MoveHalf || state == MoveVenting then Impulse else NoCommand)
    else if cmd == Half then NoCommand
    else cmd
  }

  lemma TellsIs(b: Bus1, now: Millis)
    ensures b.Tells(now) == (if Elapsed(now, b.pendingAt) <= 2000 then Comes(b.pending, b.door.state) else NoCommand)
  {
    hide Elapsed;
  }

  /**
   * The first status request that is answered after a call tells the drive what it
   * comes to if it has waited for at most 2000 ms, and nothing otherwise: every
   * press that is accepted in time is told, and told as what it is.
   */
  lemma {:induction false} ToldIs(r: Recording, k: nat)
    requires IsRecording(r) && k < |r.acts| && Answers(r, k)
    ensures ToldAt(r, k) ==
      match Queue(r, k)
      case None => NoCommand
      case Some(f) =>
        if (r.times[k] - r.times[f]) % CLOCK_SPAN <= 2000
        then Comes(FilledAt(r, f).value, r.states[k].door.state) else NoCommand
  {
    hide Filled, Bus1.Tells, Elapsed, Asks, Invited, Comes, Follows;
    QueueIs(r, k);
    AddressedIff(r, k);
    TellsIs(r.states[k], Shown(r.times[k]));
    NothingComes(r.states[k].door.state);
    if Queue(r, k).Some? {
      ElapsedIsReal(r.times[k], r.times[Queue(r, k).value]);
    }
  }

  lemma NothingComes(state: DoorState)
    ensures Comes(NoCommand, state) == NoCommand
  {
  }

  /** The byte the drive obeys for a command: one bit for each, and the same for light on and off. */
  function Bit(cmd: Command): Byte {
    match cmd
    case Open => 0x01
    case Close => 0x02
    case Impulse => 0x04
    case LightOn => 0x08
    case LightOff => 0x08
    case Vent => 0x10
    case _ => 0x00
  }

  /** On the wire: in every answer to a status request, and in no other, the drive finds the bit of what is told. */
  lemma {:induction false} WireTells(r: Recording, k: nat)
    requires IsRecording(r) && k < |r.acts|
    ensures DoByte(AnswerAt(r, k)) == (if Answers(r, k) then Bit(ToldAt(r, k)) else 0x00)
  {
    ObeyedIsTold(r, k);
    AddressedIff(r, k);
    BitIs(ToldAt(r, k));
    hide Bus1.Tells, Invited, DoByte, AnswerAt;
  }

  lemma BitIs(cmd: Command)
    ensures Bit(cmd) == CommandByte(cmd)
  {
  }

  // ----- what is shown -----

  /** What is shown of the door. */
  datatype Face = Face(state: DoorState, current: nat, light: bool, relay: bool, fault: bool)

  function FaceOf(b: Bus1): Face {
    Face(b.door.state, b.door.current, b.door.lightOn, b.door.relayOn, b.door.actuatorError)
  }

  function Bits(b: Byte, n: nat): bool
    requires n < 8
  {
    b / [1, 2, 4, 8, 16, 32, 64, 128][n] % 2 == 1
  }

  /** A broadcast: a moving door first, then a vented one, then one at either end; a position only at the ends. */
  function Sees(f: Face, b: Byte): Face {
    var s := if Bits(b, 6) then (if Bits(b, 5) then Closing else Opening)
             else if Bits(b, 7) then Venting
             else if Bits(b, 0) then DoorOpen
             else if Bits(b, 1) then DoorClosed
             else Stopped;
    Face(s, if s == DoorOpen then 200 else if s == DoorClosed then 0 else f.current,
         Bits(b, 3), Bits(b, 2), Bits(b, 4))
  }

  /** A broadcast of two bytes or more that reaches us while we are addressed. */
  ghost predicate Reports(r: Recording, k: nat)
    requires IsRecording(r) && k < |r.acts|
  {
    && r.acts[k].OnWire? && Parse(r.acts[k].raw).Some? && Parse(r.acts[k].raw).value.address == 0x00
    && |Parse(r.acts[k].raw).value.data| >= 2 && Invited(r, k)
  }

  ghost function FaceAt(r: Recording, k: nat): Face
    requires IsRecording(r) && k < |r.states|
  {
    if k == 0 then Face(DoorClosed, 0, false, false, false)
    else if Reports(r, k - 1) then Sees(FaceAt(r, k - 1), Parse(r.acts[k - 1].raw).value.data[0])
    else FaceAt(r, k - 1)
  }

  lemma BroadcastSeen(b: Bus1, data: seq<Byte>)
    ensures FaceOf(b.ApplyBroadcast(data)) == (if |data| >= 2 then Sees(FaceOf(b), data[0]) else FaceOf(b))
  {
  }

  lemma HeardFace(b: Bus1, now: Millis)
    ensures FaceOf(b.Heard(now)) == FaceOf(b) && b.Heard(now).addressed == b.addressed
  {
  }

  lemma StatusFace(b: Bus1, now: Millis)
    ensures FaceOf(b.(door := b.door.SetLink(Registered)).Status(now)) == FaceOf(b)
  {
    hide Bus1.Tells, Elapsed;
  }

  lemma FrameFace(b: Bus1, now: Millis, raw: seq<Byte>)
    ensures FaceOf(b.OnFrame(now, raw).0)
      == (if Parse(raw).Some? && Parse(raw).value.address == 0x00 && |Parse(raw).value.data| >= 2 && b.addressed
          then Sees(FaceOf(b), Parse(raw).value.data[0]) else FaceOf(b))
  {
    hide Parse, Built, Bus1.Heard, Bus1.Status, Bus1.ApplyBroadcast, FaceOf, Sees, Bus1.Tells, CommandByte;
    HeardFace(b, now);
    var h := b.Heard(now);
    StatusFace(h, now);
    ScanFace(h);
    if Parse(raw).Some? {
      BroadcastSeen(h, Parse(raw).value.data);
      NoteFace(h, Parse(raw).value);
    }
  }

  lemma ScanFace(b: Bus1)
    ensures FaceOf(b.(addressed := true).Push(BusScan)) == FaceOf(b)
  {
  }

  lemma NoteFace(b: Bus1, f: Frame)
    ensures |f.data| > 0 ==> FaceOf(b.Push(UnknownTransferSub(f.data[0]))) == FaceOf(b)
  {
  }

  lemma CallFace(b: Bus1, now: Millis, act: Act)
    requires !act.OnWire?
    ensures FaceOf(After(b, now, act).0) == FaceOf(b)
  {
    hide Elapsed, Bus1.OnFrame;
  }

  /** In every run what is shown of the door is what the broadcasts so far say, bit for bit. */
  lemma {:induction false} ShownIsReported(r: Recording, k: nat)
    requires IsRecording(r) && k < |r.states|
    ensures FaceOf(r.states[k]) == FaceAt(r, k)
  {
    hide After, Sees, Invited, Parse;
    if k > 0 {
      ShownIsReported(r, k - 1);
      AddressedIff(r, k - 1);
      assert Follows(r, k - 1);
      if r.acts[k - 1].OnWire? {
        FrameFace(r.states[k - 1], Shown(r.times[k - 1]), r.acts[k - 1].raw);
        WireIs(r.states[k - 1], Shown(r.times[k - 1]), r.acts[k - 1]);
      } else {
        CallFace(r.states[k - 1], Shown(r.times[k - 1]), r.acts[k - 1]);
      }
      hide FaceOf;
    }
  }

  lemma WireIs(b: Bus1, now: Millis, act: Act)
    requires act.OnWire?
    ensures After(b, now, act) == b.OnFrame(now, act.raw)
  {
  }

  // ----- when silence is noticed -----

  /** The last frame before step `k` that parsed, whoever it was for, or -1. */
  ghost function LastHeard(r: Recording, k: nat): (h: int)
    requires IsRecording(r) && k < |r.states|
    ensures -1 <= h < k
  {
    if k == 0 then -1
    else if r.acts[k - 1].OnWire? && Parse(r.acts[k - 1].raw).Some? then k - 1
    else LastHeard(r, k - 1)
  }

  /** The clock reading of a frame, where 0 is kept for none. */
  function Reading(now: Millis): Millis {
    if now == 0 then 1 else now
  }

  lemma StepHeard(b: Bus1, now: Millis, act: Act)
    ensures After(b, now, act).0.lastFrameAt
      == (if act.OnWire? && Parse(act.raw).Some? then Reading(now) else b.lastFrameAt)
  {
    hide Parse, Built, Elapsed, CommandByte;
  }

  lemma {:induction false} HeardIs(r: Recording, k: nat)
    requires IsRecording(r) && k < |r.states|
    ensures r.states[k].lastFrameAt
      == (if LastHeard(r, k) < 0 then 0 else Reading(Shown(r.times[LastHeard(r, k)])))
  {
    hide After, Parse;
    if k > 0 {
      HeardIs(r, k - 1);
      assert Follows(r, k - 1);
      StepHeard(r.states[k - 1], Shown(r.times[k - 1]), r.acts[k - 1]);
    }
  }

  /** A look at the bus finds it silent if and only if a frame has been heard, the last one more than 20000 ms ago. */
  lemma {:induction false} SilentIff(r: Recording, k: nat)
    requires IsRecording(r) && k < |r.acts| && r.acts[k].Watchdog?
    ensures SilentAt(r, k) <==>
      (LastHeard(r, k) >= 0 && Elapsed(Shown(r.times[k]), Reading(Shown(r.times[LastHeard(r, k)]))) > 20000)
  {
    HeardIs(r, k);
    hide Elapsed, Parse;
  }

  // ----- whether the drive is there -----

  /** A broadcast has reached us since silence was last found. */
  ghost predicate Up(r: Recording, k: nat)
    requires IsRecording(r) && k < |r.states|
  {
    k > 0 && (Reports(r, k - 1) || (!SilentAt(r, k - 1) && Up(r, k - 1)))
  }

  predicate IsHeard(act: Act) {
    act.OnWire? && Parse(act.raw).Some?
  }

  /**
   * Registered with every status request that is answered, silent once that is found,
   * enumerating from the first frame.
   */
  ghost function LinkBy(r: Recording, k: nat): Link
    requires IsRecording(r) && k < |r.states|
  {
    if k == 0 then NeverSeen
    else if Answers(r, k - 1) then Registered
    else if SilentAt(r, k - 1) then Silent
    else if IsHeard(r.acts[k - 1]) && LinkBy(r, k - 1) == NeverSeen then Enumerating
    else LinkBy(r, k - 1)
  }

  function LinkOn(b: Bus1, act: Act): Link {
    if IsHeard(act) && b.door.link == NeverSeen then Enumerating else b.door.link
  }

  predicate Broadcasts(act: Act) {
    act.OnWire? && Parse(act.raw).Some? && Parse(act.raw).value.address == 0x00 && |Parse(act.raw).value.data| >= 2
  }

  lemma StatusLink(b: Bus1, now: Millis)
    ensures var d := b.Status(now); d.door == b.door
  {
    hide Bus1.Tells, Elapsed;
  }

  lemma BroadcastLink(b: Bus1, data: seq<Byte>)
    ensures var d := b.ApplyBroadcast(data).door;
      d.link == b.door.link && d.valid == (b.door.valid || |data| >= 2)
  {
    hide Reported;
  }

  lemma FrameLink(b: Bus1, now: Millis, raw: seq<Byte>)
    ensures var d := b.OnFrame(now, raw).0.door;
      && d.valid == (b.door.valid || (Broadcasts(OnWire(raw)) && b.addressed))
      && d.link == (if Asks(raw, 0x20) && b.addressed then Registered else LinkOn(b, OnWire(raw)))
  {
    hide Parse, Built, Bus1.Status, Bus1.ApplyBroadcast, Bus1.Tells, CommandByte;
    if Parse(raw).Some? {
      var h := b.Heard(now);
      BroadcastLink(h, Parse(raw).value.data);
      StatusLink(h.(door := h.door.SetLink(Registered)), now);
    }
  }

  lemma CallLink(b: Bus1, now: Millis, act: Act)
    requires !act.OnWire?
    ensures var d, gone := After(b, now, act).0.door, act.Watchdog? && b.Gone(now);
      d.valid == (b.door.valid && !gone) && d.link == (if gone then Silent else b.door.link)
  {
    hide Elapsed, Bus1.OnFrame;
  }

  /** In every run: the state is taken to be known, and the link is shown, as the history has it. */
  lemma {:induction false} LinkIs(r: Recording, k: nat)
    requires IsRecording(r) && k < |r.states|
    ensures r.states[k].door.valid == Up(r, k) && r.states[k].door.link == LinkBy(r, k)
  {
    hide After, Invited, Parse, Asks, Bus1.Gone;
    if k > 0 {
      LinkIs(r, k - 1);
      AddressedIff(r, k - 1);
      assert Follows(r, k - 1);
      if r.acts[k - 1].OnWire? {
        FrameLink(r.states[k - 1], Shown(r.times[k - 1]), r.acts[k - 1].raw);
        WireIs(r.states[k - 1], Shown(r.times[k - 1]), r.acts[k - 1]);
      } else {
        CallLink(r.states[k - 1], Shown(r.times[k - 1]), r.acts[k - 1]);
      }
    }
  }

  // ----- which calls are taken, and what is answered -----

  /** What a call asks for, where the light is shown as it is: half open cannot be said on this bus. */
  function Wants(act: Act, light: bool): Option<Command> {
    match act
    case Press(cmd) => if cmd == NoCommand || cmd == Half then None else Some(cmd)
    case Light(on) => if on == light then None else Some(if on then LightOn else LightOff)
    case GoTo(percent) => if percent <= 5 then Some(Close) else if percent >= 95 then Some(Open) else None
    case StopPress => Some(Stop)
    case _ => None
  }

  lemma FillsAsWanted(b: Bus1, act: Act)
    ensures Filled(b, act) == (if b.addressed then Wants(act, b.door.lightOn) else None)
  {
  }

  /** A call is taken if and only if we have been scanned since the bus was last found silent, and it can be said. */
  lemma {:induction false} CallIsTakenIff(r: Recording, k: nat)
    requires IsRecording(r) && k < |r.acts|
    ensures FilledAt(r, k) == (if Invited(r, k) then Wants(r.acts[k], FaceAt(r, k).light) else None)
  {
    hide Filled, Wants, Invited, FaceAt, Follows;
    AddressedIff(r, k);
    ShownIsReported(r, k);
    FillsAsWanted(r.states[k], r.acts[k]);
  }

  /** What is answered, byte for byte: who we are to a scan, what is told and that all is well to a status request. */
  lemma {:induction false} AnswerSays(r: Recording, k: nat)
    requires IsRecording(r) && k < |r.acts|
    ensures ScannedAt(r, k) || Answers(r, k) ==>
      && IsHeard(r.acts[k])
      && Parse(AnswerAt(r, k)) == Some(Frame(0x80, (Parse(r.acts[k].raw).value.counter + 1) % 16,
           if ScannedAt(r, k) then [0x14, 0x28] else [0x29, Bit(ToldAt(r, k)), 0x10]))
    ensures !ScannedAt(r, k) && !Answers(r, k) ==> AnswerAt(r, k) == []
  {
    AddressedIff(r, k);
    BitIs(ToldAt(r, k));
    if r.acts[k].OnWire? {
      AnsweredIff(r.states[k], Shown(r.times[k]), r.acts[k].raw);
      HeardTells(r.states[k], Shown(r.times[k]));
    }
    hide Bus1.OnFrame, Parse, Bus1.Tells, Bus1.Heard, Invited, Bit, CommandByte, Follows;
  }
}
