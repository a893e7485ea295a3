/** Announcing a pause: what the loop task asks of the codec, in which order, while the bus goes on. */
module Hcp2Transport {
  import opened HcpTypes
  import opened Lifecycle
  import opened Hcp2Frame
  import opened Hcp2Model
  import opened Replies
  import opened Runs
  import opened Traffic
  import opened Hcp2Codec
  import StopRuns

  /** A reading of the clock, and the frames the bus task serves before the next one. */
  datatype Tick = Tick(now: Millis, frames: seq<seq<Byte>>)

  /** While a pause is requested no frame moves anything into the slot or out of it. */
  lemma PausedKeepsSlot(c: Core, now: Millis, input: Input)
    requires Possible(input) && c.pause.requested && (input.Exchange? || input.Report? || input.Noise?)
    ensures Next(c, now, input).slot == c.slot
  {
    match input
    case Exchange(_, _, _) =>
      ExchangeParts(c, now, input);
      ReceivedTouches(c, input);
      hide Received, Next;
    case Report(words) =>
      ReportTouches(c.LinkUp(), words, 0);
      hide Core.WriteFrom;
    case Noise =>
  }

  /** While a pause is requested, whatever arrives, the slot stays as it is and no answer carries a command. */
  lemma HushedStays(m: Model, now: Millis, raw: seq<Byte>)
    requires m.core.pause.requested
    ensures var (d, out) := m.OnFrame(now, raw);
      d.core.pause.requested && d.core.slot == m.core.slot && Obeyed(out) == (0, 0)
  {
    var act := Frame(raw);
    var c, input := Met(m, now, act), Seen(m, now, act);
    MetAlike(m, now, act);
    FrameAlike(m, now, raw);
    FrameObeyed(m, now, raw);
    FrameIsNoCall(m, now, raw);
    hide Next, Sent, Filled, Seen, Met, Model.OnFrame, Obeyed, CommandValues;
    StopRuns.PausedIsQuiet(c, now, input);
    PausedKeepsSlot(c, now, input);
    NothingIsZero();
  }

  lemma FrameIsNoCall(m: Model, now: Millis, raw: seq<Byte>)
    ensures var input := Seen(m, now, Frame(raw)); input.Exchange? || input.Report? || input.Noise?
  {
    hide Answerable, Applies;
  }

  /** A frame can put nothing into an empty slot but a stop. */
  lemma OnlyAStopComesIn(m: Model, now: Millis, raw: seq<Byte>)
    requires m.core.slot.next == NoCommand || m.core.slot.next == Stop
    ensures var next := m.OnFrame(now, raw).0.core.slot.next; next == NoCommand || next == Stop
  {
    var act := Frame(raw);
    var c, input := Met(m, now, act), Seen(m, now, act);
    MetAlike(m, now, act);
    FrameAlike(m, now, raw);
    FrameIsNoCall(m, now, raw);
    FillsWithStop(c, input);
    hide Next, Filled, Seen, Met, Model.OnFrame;
    StepSlot(c, now, input);
  }

  lemma FillsWithStop(c: Core, input: Input)
    requires Possible(input) && (input.Exchange? || input.Report? || input.Noise?)
    ensures Filled(c, input) == None || Filled(c, input) == Some(Stop)
  {
  }

  // ----- what the bus task makes of the frames meanwhile -----

  function Served(m: Model, tick: Tick): Model {
    ServedFrames(m, tick.now, tick.frames)
  }

  function ServedFrames(m: Model, now: Millis, frames: seq<seq<Byte>>): Model {
    if frames == [] then m
    else ServedFrames(m, now, frames[..|frames| - 1]).OnFrame(now, frames[|frames| - 1]).0
  }

  function ServedAll(m: Model, ticks: seq<Tick>): Model {
    if ticks == [] then m else Served(ServedAll(m, ticks[..|ticks| - 1]), ticks[|ticks| - 1])
  }

  lemma {:induction false} OnlyAStopIsServed(m: Model, now: Millis, frames: seq<seq<Byte>>)
    requires m.core.slot.next == NoCommand || m.core.slot.next == Stop
    ensures var next := ServedFrames(m, now, frames).core.slot.next; next == NoCommand || next == Stop
  {
    hide Model.OnFrame;
    if frames != [] {
      OnlyAStopIsServed(m, now, frames[..|frames| - 1]);
      OnlyAStopComesIn(ServedFrames(m, now, frames[..|frames| - 1]), now, frames[|frames| - 1]);
    }
  }

  /** The state in which the pause is requested: dropped, and whatever the bus task has done since. */
  function BeforeRequest(m: Model, gap: Tick): Model {
    Served(m.(core := m.core.DropQueued()), gap)
  }

  /** The state in which the wait for the drive begins. */
  function Announced(m: Model, gap: Tick): Model {
    var b := BeforeRequest(m, gap);
    b.(core := b.core.RequestPause())
  }

  /** At the `i`th look at it the time has not run out yet, nor at any look before. */
  predicate InTime(ticks: seq<Tick>, since: Millis, timeout: Millis, i: nat) {
    i < |ticks| && forall j :: 0 <= j <= i ==> Elapsed(ticks[j].now, since) < timeout
  }

  /** At the `i`th look the drive is seen to have confirmed, in time. */
  predicate SeenAt(m: Model, ticks: seq<Tick>, since: Millis, timeout: Millis, i: nat) {
    InTime(ticks, since, timeout, i) && ServedAll(m, ticks[..i]).core.pause.confirmed
  }

  // ----- the announcement -----

  /** The frames of one tick, answered by the bus task. */
  method Serve(codec: Hcp2Codec, tick: Tick, resp: array<Byte>) returns (answers: seq<seq<Byte>>)
    requires codec.Valid() && resp.Length >= HCP2_MAX_FRAME
    modifies codec, codec.state, codec.regCmd, codec.regResp, resp
    ensures codec.Valid() && codec.View() == Served(old(codec.View()), tick)
    ensures old(codec.pause.requested) ==>
      codec.pause.requested && codec.slot == old(codec.slot) && forall a :: a in answers ==> Obeyed(a) == (0, 0)
  {
    hide Model.OnFrame, Obeyed;
    answers := [];
    for i := 0 to |tick.frames|
      invariant codec.Valid()
      invariant codec.View() == ServedFrames(old(codec.View()), tick.now, tick.frames[..i])
      invariant old(codec.pause.requested) ==>
        codec.pause.requested && codec.slot == old(codec.slot) && forall a :: a in answers ==> Obeyed(a) == (0, 0)
    {
      if old(codec.pause.requested) {
        HushedStays(codec.View(), tick.now, tick.frames[i]);
      }
      var n := codec.OnFrame(tick.now, tick.frames[i], resp);
      answers := answers + [resp[..n]];
      assert tick.frames[..i + 1][..i] == tick.frames[..i];
    }
    assert tick.frames[..|tick.frames|] == tick.frames;
  }

  /** There is a handshake, and a drive to say it to: something arrived, and not too long ago. */
  predicate WorthSaying(c: Core, now: Millis) {
    c.caps.hasPause && c.lastFrameOn != 0 && Elapsed(now, c.lastFrameOn) <= BUS_SILENCE_MS
  }

  /**
   * Drops what is queued, requests the pause, waits for the drive to confirm it or
   * for the time to run out, lets the bus settle, and ends the request. The result
   * says whether the drive was seen to confirm in time. Between request and end no
   * answer tells the door anything and the slot does not move; what is in it
   * afterwards is what the bus task left there between drop and request, and that
   * is nothing or a stop.
   */
  method AnnouncePause(codec: Hcp2Codec, nowMs: Millis, gap: Tick, startedMs: Millis, timeoutMs: Millis,
                       ticks: seq<Tick>, settling: seq<Tick>, resp: array<Byte>)
    returns (ok: bool, answers: seq<seq<Byte>>)
    requires codec.Valid() && resp.Length >= HCP2_MAX_FRAME
    modifies codec, codec.state, codec.regCmd, codec.regResp, resp
    ensures codec.Valid()
    ensures !old(WorthSaying(codec.CoreView(), nowMs)) ==> !ok && answers == [] && codec.View() == old(codec.View())
    ensures old(WorthSaying(codec.CoreView(), nowMs)) ==>
      && !codec.pause.requested
      && codec.slot == BeforeRequest(old(codec.View()), gap).core.slot
      && (codec.slot.next == NoCommand || codec.slot.next == Stop)
      && (forall a :: a in answers ==> Obeyed(a) == (0, 0))
      && (ok <==> exists i :: SeenAt(Announced(old(codec.View()), gap), ticks, startedMs, timeoutMs, i))
  {
    hide Obeyed, SeenAt, Served;
    ok, answers := false, [];
    if !codec.caps.hasPause {
      return;
    }
    if codec.lastFrameOn == 0 || Elapsed(nowMs, codec.lastFrameOn) > BUS_SILENCE_MS {
      return;
    }
    codec.DropQueuedCommand();
    ghost var dropped := codec.View();
    assert dropped == old(codec.View()).(core := old(codec.CoreView()).DropQueued());
    var _ := Serve(codec, gap, resp);
    OnlyAStopIsLeft(dropped, gap);
    codec.RequestPause();
    assert codec.View() == Announced(old(codec.View()), gap);
    ok, answers := Wait(codec, startedMs, timeoutMs, ticks, resp);
    var last := Settle(codec, settling, resp);
    answers := answers + last;
    codec.EndPause();
  }

  lemma OnlyAStopIsLeft(m: Model, gap: Tick)
    requires m.core.slot.next == NoCommand
    ensures var next := Served(m, gap).core.slot.next; next == NoCommand || next == Stop
  {
    OnlyAStopIsServed(m, gap.now, gap.frames);
  }

  method Wait(codec: Hcp2Codec, started: Millis, timeoutMs: Millis, ticks: seq<Tick>, resp: array<Byte>)
    returns (ok: bool, answers: seq<seq<Byte>>)
    requires codec.Valid() && resp.Length >= HCP2_MAX_FRAME && codec.pause.requested
    modifies codec, codec.state, codec.regCmd, codec.regResp, resp
    ensures codec.Valid() && codec.pause.requested && codec.slot == old(codec.slot)
    ensures forall a :: a in answers ==> Obeyed(a) == (0, 0)
    ensures ok <==> exists i :: SeenAt(old(codec.View()), ticks, started, timeoutMs, i)
  {
    hide Obeyed, Served;
    ok, answers := false, [];
    for i := 0 to |ticks|
      invariant codec.Valid() && codec.pause.requested && codec.slot == old(codec.slot)
      invariant forall a :: a in answers ==> Obeyed(a) == (0, 0)
      invariant !ok && codec.View() == ServedAll(old(codec.View()), ticks[..i])
      invariant forall j :: 0 <= j < i ==> Elapsed(ticks[j].now, started) < timeoutMs
      invariant forall j :: 0 <= j < i ==> !SeenAt(old(codec.View()), ticks, started, timeoutMs, j)
    {
      if Elapsed(ticks[i].now, started) >= timeoutMs {
        break;
      }
      if codec.pause.confirmed {
        assert SeenAt(old(codec.View()), ticks, started, timeoutMs, i);
        ok := true;
        break;
      }
      var more := Serve(codec, ticks[i], resp);
      answers := answers + more;
      assert ticks[..i + 1][..i] == ticks[..i];
    }
  }

  /** The frames that still arrive until the bus is quiet. */
  method Settle(codec: Hcp2Codec, settling: seq<Tick>, resp: array<Byte>) returns (answers: seq<seq<Byte>>)
    requires codec.Valid() && resp.Length >= HCP2_MAX_FRAME && codec.pause.requested
    modifies codec, codec.state, codec.regCmd, codec.regResp, resp
    ensures codec.Valid() && codec.pause.requested && codec.slot == old(codec.slot)
    ensures codec.View() == ServedAll(old(codec.View()), settling)
    ensures forall a :: a in answers ==> Obeyed(a) == (0, 0)
  {
    hide Obeyed, Served;
    answers := [];
    for i := 0 to |settling|
      invariant codec.Valid() && codec.pause.requested && codec.slot == old(codec.slot)
      invariant codec.View() == ServedAll(old(codec.View()), settling[..i])
      invariant forall a :: a in answers ==> Obeyed(a) == (0, 0)
    {
      var more := Serve(codec, settling[i], resp);
      answers := answers + more;
      assert settling[..i + 1][..i] == settling[..i];
    }
    assert settling[..|settling|] == settling;
  }
}
