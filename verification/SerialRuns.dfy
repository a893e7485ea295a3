/** What the published serial number is put together from, whatever frames arrive in between. */
module SerialRuns {
  import opened HcpTypes
  import opened HcpState
  import opened Lifecycle
  import opened Hcp2Frame
  import opened Hcp2Model
  import opened Replies
  import opened Runs
  import opened Traffic
  import opened IdentityRuns

  // ----- the bytes of a payload -----

  lemma WireAppend(regs: seq<Word>, w: Word)
    ensures Wire(regs + [w]) == Wire(regs) + [w / 0x100, w % 0x100]
  {
    assert (regs + [w])[..|regs|] == regs;
  }

  lemma WireStep(f: seq<Byte>, from: nat, i: nat, regs: seq<Word>)
    requires from <= i && i + 2 <= |f| && Wire(regs) == f[from..i]
    ensures Wire(regs + [Rd16(f, i)]) == f[from..i + 2]
  {
    WireAppend(regs, Rd16(f, i));
    WordSplits(f, i);
  }

  lemma {:induction false} WireOfRegisters(f: seq<Byte>, from: nat, n: nat)
    requires from + 2 * n <= |f|
    ensures Wire(Registers(f, from, n)) == f[from..from + 2 * n]
  {
    if n > 0 {
      hide Wire, Registers, Rd16;
      WireOfRegisters(f, from, n - 1);
      RegistersPrefix(f, from, n - 1);
      WireStep(f, from, from + 2 * (n - 1), Registers(f, from, n - 1));
    }
  }

  lemma WordSplits(f: seq<Byte>, i: nat)
    requires i + 1 < |f|
    ensures Rd16(f, i) / 0x100 == f[i] && Rd16(f, i) % 0x100 == f[i + 1]
  {
  }

  /** As registers or as bytes, the payload is what the write carried from its third register on. */
  lemma PayloadBytes(raw: seq<Byte>, count: nat, n: nat)
    requires 2 + n <= count && 11 + 2 * count <= |raw|
    ensures Wire(Registers(raw, 11, count)[2..2 + n]) == raw[15..15 + 2 * n]
  {
    assert Registers(raw, 11, count)[2..2 + n] == Registers(raw, 15, n);
    WireOfRegisters(raw, 15, n);
  }

  // ----- the halves the codec keeps -----

  predicate IsSerial(raw: seq<Byte>) {
    Answerable(raw) && Rd16(raw, 8) >= 2 && raw[12] == CMD_TRANSFER && raw[13] == IDENT_SUB_SERIAL
  }

  /** This act is a first half that the codec accepts. */
  predicate KeepsFirst(m: Model, act: Act) {
    && act.Frame? && IsSerial(act.raw)
    && m.ident.KeepsFirstHalf(act.raw[11], IDENT_SUB_SERIAL, Rd16(act.raw, 8))
  }

  predicate KeepsSecond(m: Model, act: Act) {
    && act.Frame? && IsSerial(act.raw)
    && m.ident.KeepsSecondHalf(act.raw[11], IDENT_SUB_SERIAL, Rd16(act.raw, 8))
  }

  function FirstHalf(raw: seq<Byte>): (b: seq<Byte>)
    requires |raw| >= 29
    ensures |b| == SERIAL_FIRST_LEN
  {
    raw[15..29]
  }

  function SecondHalf(raw: seq<Byte>): (b: seq<Byte>)
    requires |raw| >= 27
    ensures |b| == SERIAL_SECOND_LEN
  {
    raw[15..27]
  }

  lemma KeptIsLong(m: Model, act: Act)
    ensures KeepsFirst(m, act) ==> |act.raw| >= 29
    ensures KeepsSecond(m, act) ==> |act.raw| >= 27
  {
    hide Validate;
  }

  /** The texts, the buffer and what is still wanted, against the halves accepted so far. */
  predicate Pieced(id: Ident, first: seq<Byte>, whole: Option<seq<Byte>>) {
    && (id.wanted == IDENT_REQ_SERIAL && id.firstHalfSeen ==>
          |first| == SERIAL_FIRST_LEN && id.serialBuf[..SERIAL_FIRST_LEN] == first)
    && (!id.started ==> id.wanted == 0 && whole.None?)
    && match whole
       case None => id.serial == [] && !id.serialReady
       case Some(bytes) =>
         id.started && id.wanted != IDENT_REQ_SERIAL && |bytes| == IDENT_SERIAL_LEN && id.serial == Text(bytes)
  }

  function FirstNow(m: Model, act: Act, first: seq<Byte>): seq<Byte> {
    if act.Frame? && |act.raw| >= 29 && KeepsFirst(m, act) then FirstHalf(act.raw) else first
  }

  function WholeNow(m: Model, act: Act, first: seq<Byte>, whole: Option<seq<Byte>>): Option<seq<Byte>> {
    if act.Frame? && |act.raw| >= 27 && KeepsSecond(m, act) then Some(first + SecondHalf(act.raw)) else whole
  }

  lemma PollPieced(m: Model, now: Millis, readCnt: nat, words: seq<Word>, first: seq<Byte>, whole: Option<seq<Byte>>)
    requires 1 <= |words| <= 9 && Pieced(m.ident, first, whole) && !IsPayload(words)
    ensures Pieced(IdentAfter(m, now, readCnt, words), first, whole)
  {
    hide CommandValues, Carries, Elapsed, Text;
  }

  lemma SerialWords(raw: seq<Byte>)
    requires IsSerial(raw)
    ensures var words := Registers(raw, 11, Rd16(raw, 8));
      && 2 <= |words| <= 9 && IsPayload(words)
      && words[0] / 0x100 == raw[11] && words[1] / 0x100 == IDENT_SUB_SERIAL
  {
    hide Validate;
    var words := Registers(raw, 11, Rd16(raw, 8));
    assert words[0] == Rd16(raw, 11) && words[1] == Rd16(raw, 13);
  }

  lemma FirstReceived(id: Ident, now: Millis, regs: Block, counterByte: Byte, count: nat, bytes: seq<Byte>,
                      first: seq<Byte>, whole: Option<seq<Byte>>)
    requires Pieced(id, first, whole) && id.KeepsFirstHalf(counterByte, IDENT_SUB_SERIAL, count)
    requires Wire(regs[2..9]) == bytes
    ensures Pieced(id.Receive(now, regs, counterByte, IDENT_SUB_SERIAL, count), bytes, whole)
  {
    hide Text, Wire;
  }

  lemma SecondReceived(id: Ident, now: Millis, regs: Block, counterByte: Byte, count: nat, bytes: seq<Byte>,
                       first: seq<Byte>, whole: Option<seq<Byte>>)
    requires Pieced(id, first, whole) && id.KeepsSecondHalf(counterByte, IDENT_SUB_SERIAL, count)
    requires Wire(regs[2..8]) == bytes
    ensures Pieced(id.Receive(now, regs, counterByte, IDENT_SUB_SERIAL, count), first, Some(first + bytes))
  {
    hide Text, Wire;
  }

  lemma FirstPieced(m: Model, now: Millis, raw: seq<Byte>, first: seq<Byte>, whole: Option<seq<Byte>>)
    requires Pieced(m.ident, first, whole) && KeepsFirst(m, Frame(raw)) && |raw| >= 29
    ensures Pieced(IdentAfter(m, now, Rd16(raw, 4), Registers(raw, 11, Rd16(raw, 8))), FirstHalf(raw), whole)
  {
    hide Validate, Wire, Pieced, Ident.Receive;
    SerialWords(raw);
    var words := Registers(raw, 11, Rd16(raw, 8));
    assert |words| == 9;
    assert Landed(m, words) == words;
    PayloadBytes(raw, 9, 7);
    hide Answerable, Registers;
    FirstReceived(m.ident, now, words, raw[11], 9, FirstHalf(raw), first, whole);
  }

  lemma SecondPieced(m: Model, now: Millis, raw: seq<Byte>, first: seq<Byte>, whole: Option<seq<Byte>>)
    requires Pieced(m.ident, first, whole) && KeepsSecond(m, Frame(raw)) && |raw| >= 27
    ensures Pieced(IdentAfter(m, now, Rd16(raw, 4), Registers(raw, 11, Rd16(raw, 8))), first,
                   Some(first + SecondHalf(raw)))
  {
    hide Validate, Wire, Pieced, Ident.Receive;
    SerialWords(raw);
    var count := Rd16(raw, 8);
    var words := Registers(raw, 11, count);
    assert count >= 8;
    PayloadBytes(raw, count, 6);
    assert Landed(m, words)[2..8] == words[2..8];
    hide Answerable, Registers;
    SecondReceived(m.ident, now, Landed(m, words), raw[11], count, SecondHalf(raw), first, whole);
  }

  lemma OtherPayloadPieced(m: Model, now: Millis, raw: seq<Byte>, first: seq<Byte>, whole: Option<seq<Byte>>)
    requires Answerable(raw) && Pieced(m.ident, first, whole)
    requires !KeepsFirst(m, Frame(raw)) && !KeepsSecond(m, Frame(raw))
    requires IsPayload(Registers(raw, 11, Rd16(raw, 8)))
    ensures Pieced(IdentAfter(m, now, Rd16(raw, 4), Registers(raw, 11, Rd16(raw, 8))), first, whole)
  {
    hide Text, Validate, Wire;
    var words := Registers(raw, 11, Rd16(raw, 8));
    assert words[0] == Rd16(raw, 11) && words[1] == Rd16(raw, 13);
  }

  lemma FramePieced(m: Model, now: Millis, raw: seq<Byte>, first: seq<Byte>, whole: Option<seq<Byte>>)
    requires Pieced(m.ident, first, whole)
    ensures var act := Frame(raw);
      Pieced(m.OnFrame(now, raw).0.ident, FirstNow(m, act, first), WholeNow(m, act, first, whole))
  {
    hide Model.OnFrame, Pieced, IdentAfter, RequestAfter, Ident.KeepsFirstHalf, Ident.KeepsSecondHalf;
    KeptIsLong(m, Frame(raw));
    if !Answerable(raw) {
      OtherIdent(m, now, raw);
    } else {
      hide Answerable;
      var h, words := m.(core := m.core.Heard(now)), Registers(raw, 11, Rd16(raw, 8));
      FrameIdent(m, now, raw);
      NotBoth(m, Frame(raw));
      if KeepsFirst(m, Frame(raw)) {
        FirstPieced(h, now, raw, first, whole);
      } else if KeepsSecond(m, Frame(raw)) {
        SecondPieced(h, now, raw, first, whole);
      } else if IsPayload(words) {
        OtherPayloadPieced(h, now, raw, first, whole);
      } else {
        PollPieced(h, now, Rd16(raw, 4), words, first, whole);
      }
    }
  }

  lemma NotBoth(m: Model, act: Act)
    ensures !(KeepsFirst(m, act) && KeepsSecond(m, act))
  {
  }

  // ----- nothing but publishing touches the published texts -----

  predicate SameSerial(c: Core, d: Core) {
    d.door.serial == c.door.serial
  }

  lemma ExchangeSerial(m: Model, now: Millis, readCnt: nat, words: seq<Word>)
    requires 1 <= |words| <= 9
    ensures SameSerial(m.core, m.Exchange(now, readCnt, words).core)
  {
    var counterByte, command := words[0] / 0x100, words[0] % 0x100;
    var a := m.(core := m.core.SyncCounter(counterByte, command).ForgetSent());
    assert SameSerial(m.core, a.core);
    HookSerial(a, now, readCnt, |words|, command);
    AppliedSerial(a.Hook(now, readCnt, |words|, command), now, words);
    hide Core.SyncCounter, Model.Hook, Model.Applied;
  }

  lemma EffectSerial(c: Core, now: Millis)
    ensures SameSerial(c, c.CheckEffect(now))
  {
    hide Elapsed, Core.TookEffect;
  }

  lemma PollSerial(c: Core, now: Millis)
    ensures SameSerial(c, c.Poll(now))
  {
    EffectSerial(c, now);
    RestOfReady(c.CheckEffect(now), now);
    hide Core.CheckEffect, Core.HonourCancel, Core.Expire, Core.TakeStop, Core.Choose, Core.RepeatStillMakesSense;
  }

  lemma RideAlongSerial(m: Model, now: Millis)
    ensures SameSerial(m.core, m.RideAlong(now).core)
  {
    hide CommandValues, Ident.Asks, Ident.GivesUp, Ident.Ask;
  }

  lemma StatusPollSerial(m: Model, now: Millis)
    ensures SameSerial(m.core, m.StatusPoll(now).core)
  {
    hide Core.Poll, Model.RideAlong;
    PollSerial(m.core, now);
    RideAlongSerial(m.(core := m.core.Poll(now)), now);
  }

  lemma HookSerial(m: Model, now: Millis, readCnt: nat, writeCnt: nat, command: Byte)
    ensures SameSerial(m.core, m.Hook(now, readCnt, writeCnt, command).core)
  {
    hide Model.StatusPoll, Core.LinkUp, SameSerial;
    StatusPollSerial(m, now);
    LinkUpSerial(m.core, [EmptyCommand]);
    LinkUpSerial(m.core, [BusScan]);
    LinkUpSerial(m.core, [UnanswerableFrame(readCnt, writeCnt)]);
    LinkUpSerial(m.core, []);
  }

  lemma LinkUpSerial(c: Core, noted: seq<Event>)
    ensures SameSerial(c, c.(log := c.log + noted).LinkUp())
    ensures noted == [] ==> SameSerial(c, c.LinkUp())
  {
    assert c.log + [] == c.log;
  }

  lemma AppliedSerial(m: Model, now: Millis, words: seq<Word>)
    requires 1 <= |words| <= 9
    ensures SameSerial(m.core, m.Applied(now, words).core)
  {
    hide OrWord, Ident.Receive, Ident.Keeps, Ident.KeepsFirmware, Ident.KeepsSecondHalf;
  }

  lemma RegisterSerial(c: Core, i: nat, val: Word)
    requires i < 9
    ensures SameSerial(c, c.WriteBcast(i, val))
  {
  }

  lemma {:induction false} ReportSerial(c: Core, words: seq<Word>, i: nat)
    requires i <= |words| <= 9
    ensures SameSerial(c, c.WriteFrom(words, i))
    decreases |words| - i
  {
    if i < |words| {
      RegisterSerial(c, i, words[i]);
      hide Core.WriteBcast;
      ReportSerial(c.WriteBcast(i, words[i]), words, i + 1);
    }
  }

  lemma AnsweredSerial(m: Model, now: Millis, raw: seq<Byte>)
    requires Answerable(raw)
    ensures SameSerial(m.core, m.OnFrame(now, raw).0.core)
  {
    hide Core.Heard, Validate, Model.Exchange, Model.AnswerTo, CountsAgree;
    var h := m.(core := m.core.Heard(now));
    HeardSerial(m.core, now);
    AnswerableIsChecked(raw);
    ExchangeSerial(h, now, Rd16(raw, 4), Registers(raw, 11, Rd16(raw, 8)));
  }

  lemma HeardSerial(c: Core, now: Millis)
    ensures SameSerial(c, c.Heard(now))
  {
  }

  lemma AppliesSerial(m: Model, now: Millis, raw: seq<Byte>)
    requires Applies(raw)
    ensures SameSerial(m.core, m.OnFrame(now, raw).0.core)
  {
    hide Core.Heard, Validate, Core.Report, Finished;
    var h := m.(core := m.core.Heard(now));
    HeardSerial(m.core, now);
    WholeReportSerial(h.core, now, Registers(raw, 7, Rd16(raw, 4)));
  }

  lemma WholeReportSerial(c: Core, now: Millis, words: seq<Word>)
    requires |words| <= 9
    ensures SameSerial(c, c.Report(now, words))
  {
    ReportSerial(c.LinkUp(), words, 0);
    hide Core.WriteFrom;
  }

  lemma FrameSerial(m: Model, now: Millis, raw: seq<Byte>)
    ensures SameSerial(m.core, m.OnFrame(now, raw).0.core)
  {
    hide Model.OnFrame, Answerable, Applies;
    if Answerable(raw) {
      AnsweredSerial(m, now, raw);
    } else if Applies(raw) {
      AppliesSerial(m, now, raw);
    } else {
      SilenceObeyed(m, now, raw);
      SilenceChangesNothing(m, now, raw);
    }
  }

  lemma CallSerial(c: Core, now: Millis, input: Input)
    requires IsCall(input)
    ensures SameSerial(c, Next(c, now, input))
  {
  }

  /** What is published is nothing yet, or all of it. */
  predicate Published(m: Model, whole: Option<seq<Byte>>) {
    m.core.door.serial == [] || (whole.Some? && m.core.door.serial == Text(whole.value))
  }

  lemma {:induction false} TextIsShort(data: seq<Byte>)
    ensures |Text(data)| <= |data|
  {
    PrefixIsShort(data);
    TrimmedIsShort(PrintablePrefix(data));
  }

  lemma {:induction false} PrefixIsShort(data: seq<Byte>)
    ensures |PrintablePrefix(data)| <= |data|
  {
    if data != [] {
      PrefixIsShort(data[1..]);
    }
  }

  lemma {:induction false} TrimmedIsShort(text: seq<Byte>)
    ensures |Trimmed(text)| <= |text|
  {
    if text != [] {
      TrimmedIsShort(text[..|text| - 1]);
    }
  }

  lemma PublishPieced(m: Model, first: seq<Byte>, whole: Option<seq<Byte>>)
    requires Pieced(m.ident, first, whole) && Published(m, whole)
    ensures Pieced(m.PublishIdentity().ident, first, whole) && Published(m.PublishIdentity(), whole)
  {
    if whole.Some? {
      TextIsShort(whole.value);
    }
    hide Text;
  }

  lemma FrameActPieced(m: Model, now: Millis, raw: seq<Byte>, first: seq<Byte>, whole: Option<seq<Byte>>)
    requires Pieced(m.ident, first, whole) && Published(m, whole)
    ensures var act, d := Frame(raw), m.OnFrame(now, raw).0;
      var w := WholeNow(m, act, first, whole);
      Pieced(d.ident, FirstNow(m, act, first), w) && Published(d, w)
  {
    hide Model.OnFrame, Pieced, Text, KeepsFirst, KeepsSecond, SecondHalf;
    FramePieced(m, now, raw, first, whole);
    FrameSerial(m, now, raw);
    if KeepsSecond(m, Frame(raw)) {
      SecondIsLast(m, Frame(raw), first, whole);
    }
  }

  lemma ActPieced(m: Model, now: Millis, act: Act, first: seq<Byte>, whole: Option<seq<Byte>>)
    requires Allowed(act) && Pieced(m.ident, first, whole) && Published(m, whole)
    ensures var d, w := After(m, now, act).0, WholeNow(m, act, first, whole);
      Pieced(d.ident, FirstNow(m, act, first), w) && Published(d, w)
  {
    hide Model.OnFrame, Next, Model.PublishIdentity, Pieced, Text, KeepsFirst, KeepsSecond;
    match act
    case Frame(raw) =>
      FrameActPieced(m, now, raw, first, whole);
      hide Published;
    case Call(input) => CallSerial(m.core, now, input);
    case Watchdog =>
    case Publish =>
      PublishPieced(m, first, whole);
      hide Published;
  }

  lemma SecondIsLast(m: Model, act: Act, first: seq<Byte>, whole: Option<seq<Byte>>)
    requires Pieced(m.ident, first, whole) && KeepsSecond(m, act)
    ensures whole.None?
  {
  }

  // ----- over a whole run -----

  ghost predicate FirstKeptAt(t: Recording, i: nat)
    requires IsRecording(t) && i < |t.acts|
  {
    KeepsFirst(t.models[i], t.acts[i])
  }

  ghost predicate SecondKeptAt(t: Recording, j: nat)
    requires IsRecording(t) && j < |t.acts|
  {
    KeepsSecond(t.models[j], t.acts[j])
  }

  /** The last first half accepted before step `k`, or -1. */
  ghost function LastFirst(t: Recording, k: nat): (i: int)
    requires IsRecording(t) && k < |t.models|
    ensures -1 <= i < k
  {
    if k == 0 then -1 else if FirstKeptAt(t, k - 1) then k - 1 else LastFirst(t, k - 1)
  }

  /** The last second half accepted before step `k`, or -1. */
  ghost function LastSecond(t: Recording, k: nat): (j: int)
    requires IsRecording(t) && k < |t.models|
    ensures -1 <= j < k
  {
    if k == 0 then -1 else if SecondKeptAt(t, k - 1) then k - 1 else LastSecond(t, k - 1)
  }

  lemma {:induction false} LastFirstIs(t: Recording, k: nat)
    requires IsRecording(t) && k < |t.models|
    ensures var i := LastFirst(t, k);
      && (i >= 0 ==> FirstKeptAt(t, i) && t.acts[i].Frame? && |t.acts[i].raw| >= 29)
      && (forall m :: i < m < k ==> !FirstKeptAt(t, m))
  {
    hide KeepsFirst;
    if k > 0 {
      LastFirstIs(t, k - 1);
      KeptIsLong(t.models[k - 1], t.acts[k - 1]);
      KeptAreFrames(t.models[k - 1], t.acts[k - 1]);
    }
  }

  lemma {:induction false} LastSecondIs(t: Recording, k: nat)
    requires IsRecording(t) && k < |t.models|
    ensures var j := LastSecond(t, k);
      j >= 0 ==> SecondKeptAt(t, j) && t.acts[j].Frame? && |t.acts[j].raw| >= 27
  {
    hide KeepsSecond;
    if k > 0 {
      LastSecondIs(t, k - 1);
      KeptIsLong(t.models[k - 1], t.acts[k - 1]);
      KeptAreFrames(t.models[k - 1], t.acts[k - 1]);
    }
  }

  ghost function FirstBytes(t: Recording, k: nat): seq<Byte>
    requires IsRecording(t) && k < |t.models|
  {
    LastFirstIs(t, k);
    if LastFirst(t, k) < 0 then [] else FirstHalf(t.acts[LastFirst(t, k)].raw)
  }

  /** The first half that was accepted last, and the second half accepted behind it. */
  ghost function Whole(t: Recording, k: nat): Option<seq<Byte>>
    requires IsRecording(t) && k < |t.models|
  {
    LastSecondIs(t, k);
    var j := LastSecond(t, k);
    if j < 0 then None else Some(FirstBytes(t, j) + SecondHalf(t.acts[j].raw))
  }

  lemma HistoryStep(t: Recording, k: nat)
    requires IsRecording(t) && 0 < k < |t.models|
    ensures var m, act := t.models[k - 1], t.acts[k - 1];
      && FirstBytes(t, k) == FirstNow(m, act, FirstBytes(t, k - 1))
      && Whole(t, k) == WholeNow(m, act, FirstBytes(t, k - 1), Whole(t, k - 1))
  {
    hide KeepsFirst, KeepsSecond, FirstHalf, SecondHalf;
    KeptIsLong(t.models[k - 1], t.acts[k - 1]);
    KeptAreFrames(t.models[k - 1], t.acts[k - 1]);
  }

  lemma KeptAreFrames(m: Model, act: Act)
    ensures KeepsFirst(m, act) || KeepsSecond(m, act) ==> act.Frame?
  {
  }

  lemma {:induction false} PiecedHolds(t: Recording, k: nat)
    requires IsRecording(t) && k < |t.models|
    ensures Pieced(t.models[k].ident, FirstBytes(t, k), Whole(t, k)) && Published(t.models[k], Whole(t, k))
  {
    if k > 0 {
      PiecedHolds(t, k - 1);
      assert Follows(t, k - 1);
      HistoryStep(t, k);
      ActPieced(t.models[k - 1], Shown(t.times[k - 1]), t.acts[k - 1], FirstBytes(t, k - 1), Whole(t, k - 1));
      hide After, Pieced, Published, FirstNow, WholeNow, FirstBytes, Whole;
    }
  }

  lemma {:induction false} WholeHasHalves(t: Recording, k: nat)
    requires IsRecording(t) && k < |t.models| && LastSecond(t, k) >= 0
    ensures LastFirst(t, LastSecond(t, k)) >= 0
  {
    PiecedHolds(t, k);
  }

  /**
   * Whatever frames arrive in between, a serial number that is published is the
   * text of an accepted second half behind the last first half accepted before it.
   */
  lemma {:induction false} PublishedIsWhole(t: Recording, k: nat)
    requires IsRecording(t) && k < |t.models| && t.models[k].core.door.serial != []
    ensures exists i: nat, j: nat ::
      && i < j < k && FirstKeptAt(t, i) && SecondKeptAt(t, j)
      && t.acts[i].Frame? && |t.acts[i].raw| >= 29 && t.acts[j].Frame? && |t.acts[j].raw| >= 27
      && (forall m :: i < m < j ==> !FirstKeptAt(t, m))
      && t.models[k].core.door.serial == Text(FirstHalf(t.acts[i].raw) + SecondHalf(t.acts[j].raw))
  {
    hide FirstKeptAt, SecondKeptAt, FirstHalf, SecondHalf, Text, Pieced;
    PiecedHolds(t, k);
    var j := LastSecond(t, k);
    LastSecondIs(t, k);
    WholeHasHalves(t, k);
    var i := LastFirst(t, j);
    LastFirstIs(t, j);
    assert t.models[k].core.door.serial == Text(FirstHalf(t.acts[i].raw) + SecondHalf(t.acts[j].raw));
  }
}
