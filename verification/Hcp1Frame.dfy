/**
 * Frames on the older bus: an address, counter and length in one byte, the
 * data, and an eight-bit checksum.
 */
module Hcp1Frame {
  import opened HcpTypes
  import opened BitOps
  import opened Bits
  import opened ShiftRegister
  import opened Crc8

  const HCP1_ADDR_BROADCAST: Byte := 0x00
  const HCP1_ADDR_SELF: Byte := 0x28
  const HCP1_ADDR_MASTER: Byte := 0x80
  const HCP1_MAX_FRAME := 16

  type Counter = c: int | 0 <= c < 16

  datatype Frame = Frame(address: Byte, counter: Counter, data: seq<Byte>)

  function NextCounter(received: Byte): Counter {
    (received + 1) % 16
  }

  predicate ChecksumHolds(f: seq<Byte>)
    requires |f| >= 1
  {
    Crc(f[..|f| - 1]) == f[|f| - 1]
  }

  function Parse(f: seq<Byte>): Option<Frame> {
    if |f| < 3 || |f| > HCP1_MAX_FRAME then None
    else if f[1] % 16 + 3 != |f| then None
    else if !ChecksumHolds(f) then None
    else Some(Frame(f[0], f[1] / 16, f[2..|f| - 1]))
  }

  predicate Fits(cap: nat, length: nat) {
    length <= 0x0F && length + 3 <= cap && length + 3 <= HCP1_MAX_FRAME
  }

  function Header(counter: Byte, length: nat): Byte
    requires length < 16
  {
    counter % 16 * 16 + length
  }

  function Built(address: Byte, counter: Byte, data: seq<Byte>): (f: seq<Byte>)
    requires |data| < 16
    ensures |f| == |data| + 3
  {
    var body := [address, Header(counter, |data|)] + data;
    body + [Crc(body)]
  }

  method ParseFrame(buf: seq<Byte>) returns (r: Option<Frame>)
    ensures r == Parse(buf)
  {
    if |buf| < 3 || |buf| > HCP1_MAX_FRAME {
      return None;
    }
    var length := buf[1] % 16;
    if length + 3 != |buf| {
      return None;
    }
    var crc := Compute(buf[..|buf| - 1]);
    if crc != buf[|buf| - 1] {
      return None;
    }
    return Some(Frame(buf[0], buf[1] / 16, buf[2..|buf| - 1]));
  }

  /** Builds a frame in the caller's buffer, or leaves it alone where it would not fit. */
  method Build(buf: array<Byte>, cap: nat, address: Byte, counter: Byte, data: seq<Byte>) returns (total: nat)
    requires cap <= buf.Length
    modifies buf
    ensures !Fits(cap, |data|) ==> total == 0 && buf[..] == old(buf[..])
    ensures Fits(cap, |data|) ==>
      total == |data| + 3 && buf[..total] == Built(address, counter, data) && buf[total..] == old(buf[total..])
  {
    if |data| > 0x0F || |data| + 3 > cap || |data| + 3 > HCP1_MAX_FRAME {
      return 0;
    }
    total := |data| + 3;
    buf[0] := address;
    buf[1] := Header(counter, |data|);
    for i := 0 to |data|
      invariant buf[0] == address && buf[1] == Header(counter, |data|)
      invariant buf[2..2 + i] == data[..i]
      invariant buf[total..] == old(buf[total..])
    {
      buf[2 + i] := data[i];
      assert buf[2..2 + i + 1] == data[..i] + [data[i]];
    }
    ghost var body := [address, Header(counter, |data|)] + data;
    assert buf[..total - 1] == body;
    buf[total - 1] := Compute(buf[..total - 1]);
    assert buf[..total] == body + [Crc(body)];
  }

  // ----- building and parsing undo each other -----

  lemma HeaderSplits(counter: Byte, length: nat, b: Byte)
    requires length < 16
    ensures Header(counter, length) / 16 == counter % 16 && Header(counter, length) % 16 == length
    ensures Header(b / 16, b % 16) == b
  {
  }

  lemma ParseUndoesBuilt(address: Byte, counter: Byte, data: seq<Byte>)
    requires |data| <= 13
    ensures Parse(Built(address, counter, data)) == Some(Frame(address, counter % 16, data))
  {
    HeaderSplits(counter, |data|, 0);
    var f := Built(address, counter, data);
    var body := [address, Header(counter, |data|)] + data;
    assert f[..|f| - 1] == body && f[|f| - 1] == Crc(body);
    assert ChecksumHolds(f);
    assert f[2..|f| - 1] == data;
    assert f[0] == address && f[1] == Header(counter, |data|);
  }

  lemma BuiltUndoesParse(f: seq<Byte>)
    requires Parse(f).Some?
    ensures var p := Parse(f).value;
      |p.data| <= 13 && Built(p.address, p.counter, p.data) == f
  {
    var p := Parse(f).value;
    HeaderSplits(0, 0, f[1]);
    assert |p.data| == f[1] % 16;
    var body := [p.address, Header(p.counter, |p.data|)] + p.data;
    assert ChecksumHolds(f);
    assert f[..|f| - 1] == body;
    assert f == body + [f[|f| - 1]];
  }

  // ----- what the checksum notices -----

  lemma LastByte(c: Byte, b: Byte)
    ensures Steps(MACHINE, XorByte(c, b), 8) == 0 <==> c == b
  {
    XorSelf(b);
    LosslessLaw();
    assert Steps(MACHINE, 0, 8) == 0 by {
      StepsOfZero(8);
    }
    if Steps(MACHINE, XorByte(c, b), 8) == 0 {
      StepsInjective(MACHINE, XorByte(c, b), 0, 8);
      XorCancel(c, b);
      XorZero(b);
    }
  }

  lemma {:induction false} StepsOfZero(n: nat)
    ensures Steps(MACHINE, 0, n) == 0
  {
    if n > 0 {
      StepsOfZero(n - 1);
    }
  }

  lemma HoldsIffResidueZero(f: seq<Byte>)
    requires |f| >= 1
    ensures ChecksumHolds(f) <==> Feed(MACHINE, 0xF3, f) == 0
  {
    LastByte(Crc(f[..|f| - 1]), f[|f| - 1]);
  }

  lemma ErrorAdds(f: seq<Byte>, e: seq<Byte>)
    requires |e| == |f|
    ensures Feed(MACHINE, 0xF3, XorBytes(f, e)) == XorByte(Feed(MACHINE, 0xF3, f), Feed(MACHINE, 0, e))
  {
    LinearLaw();
    XorZero(0xF3);
    FeedLinear(MACHINE, 0xF3, 0, f, e);
  }

  /** An error passes the checksum exactly when, alone, it leaves the register at zero. */
  lemma ErrorPassesIff(f: seq<Byte>, e: seq<Byte>)
    requires |e| == |f| >= 1 && ChecksumHolds(f)
    ensures ChecksumHolds(XorBytes(f, e)) <==> Feed(MACHINE, 0, e) == 0
  {
    HoldsIffResidueZero(f);
    HoldsIffResidueZero(XorBytes(f, e));
    ErrorAdds(f, e);
    XorZero(Feed(MACHINE, 0, e));
  }

  /** Every error of odd weight, and every burst of up to eight bits, is refused. */
  lemma ErrorsAreRefused(f: seq<Byte>, e: seq<Byte>)
    requires |e| == |f| && Parse(f).Some?
    requires Weight(FrameBits(e, HighBitFirst)) % 2 == 1 || IsBurst(FrameBits(e, HighBitFirst), 8)
    ensures Parse(XorBytes(f, e)).None?
  {
    Laws();
    ErrorsThatShow(MACHINE, e);
    ErrorPassesIff(f, e);
  }
}
