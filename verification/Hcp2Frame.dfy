/** Frames on the newer bus: a MODBUS RTU frame ends in its checksum, low byte first. */
module Hcp2Frame {
  import opened HcpTypes
  import opened BitOps
  import opened Bits
  import opened ShiftRegister
  import opened Crc16

  const HCP2_MAX_FRAME := 256

  function TrailingWord(f: seq<Byte>): Word
    requires |f| >= 2
  {
    var lo: int, hi: int := f[|f| - 2], f[|f| - 1];
    lo + 0x100 * hi
  }

  /** The length without the checksum, or 0 for a frame that cannot be trusted. */
  function Validate(f: seq<Byte>): (len: nat)
    ensures len == 0 || (len == |f| - 2 && len >= 2)
  {
    var n := |f|;
    if n < 4 then 0
    else if TrailingWord(f) != Crc(f[..n - 2]) then 0
    else n - 2
  }

  predicate Accepted(f: seq<Byte>) {
    Validate(f) != 0
  }

  function Finished(body: seq<Byte>): (f: seq<Byte>)
    ensures |f| == |body| + 2 && f[..|body|] == body
  {
    body + [Crc(body) % 0x100, Crc(body) / 0x100]
  }

  method ValidateFrame(buf: seq<Byte>) returns (len: nat)
    ensures len == Validate(buf)
  {
    if |buf| < 4 {
      return 0;
    }
    var got := TrailingWord(buf);
    var crc := Compute(buf[..|buf| - 2]);
    if got != crc {
      return 0;
    }
    return |buf| - 2;
  }

  /** Appends the checksum in the caller's buffer; a buffer too small is left as it is. */
  method Finish(buf: array<Byte>, len: nat, cap: nat) returns (total: nat)
    requires cap <= buf.Length
    modifies buf
    ensures len == 0 || len + 2 > cap ==> total == 0 && buf[..] == old(buf[..])
    ensures len > 0 && len + 2 <= cap ==>
      total == len + 2 && buf[..total] == Finished(old(buf[..len])) && buf[total..] == old(buf[total..])
  {
    if len == 0 || len + 2 > cap {
      return 0;
    }
    var crc := Compute(buf[..len]);
    buf[len] := crc % 0x100;
    buf[len + 1] := crc / 0x100;
    assert buf[..len + 2] == old(buf[..len]) + [crc % 0x100, crc / 0x100];
    return len + 2;
  }

  // ----- a frame is accepted exactly when all of it leaves the register at zero -----

  lemma {:induction false} StepsShiftOut(hi: Byte, n: nat)
    requires n <= 8
    ensures Steps(MACHINE, hi * 0x100, n) == Up(hi, 8 - n)
  {
    UpValues(hi);
    if n > 0 {
      StepsShiftOut(hi, n - 1);
      assert Up(hi, 8 - (n - 1)) == 2 * Up(hi, 8 - n);
    }
  }

  lemma SecondByte(mid: Word, hi: Byte)
    ensures Steps(MACHINE, XorWord(mid, hi), 8) == 0 <==> mid == hi
  {
    StepsShiftOut(0, 8);
    XorSelf(hi);
    if Steps(MACHINE, XorWord(mid, hi), 8) == 0 {
      LosslessLaw();
      StepsInjective(MACHINE, XorWord(mid, hi), 0, 8);
      XorCancel(mid, hi);
      XorZero(hi);
    }
  }

  lemma HighByteIsLeft(w: Word, hi: Byte)
    ensures Steps(MACHINE, w, 8) == hi <==> w == hi * 0x100
  {
    StepsShiftOut(hi, 8);
    LosslessLaw();
    if Steps(MACHINE, w, 8) == hi {
      StepsInjective(MACHINE, w, hi * 0x100, 8);
    }
  }

  lemma LowByteCancels(lo: Byte, hi: Byte)
    ensures Xor(hi * 0x100 + lo, lo) == hi * 0x100
  {
    PowValues();
    UpValues(hi);
    UpValues(0);
    XorSplit(hi, lo, 0, lo, 8);
    XorSelf(lo);
    XorZero(hi);
  }

  lemma FirstByte(c: Word, lo: Byte, hi: Byte)
    ensures Steps(MACHINE, XorWord(c, lo), 8) == hi <==> c == hi * 0x100 + lo
  {
    HighByteIsLeft(XorWord(c, lo), hi);
    LowByteCancels(lo, hi);
    XorCancel(c, lo);
    XorCancel(hi * 0x100 + lo, lo);
  }

  lemma AcceptedIffResidueZero(f: seq<Byte>)
    requires |f| >= 4
    ensures Accepted(f) <==> Feed(MACHINE, 0xFFFF, f) == 0
  {
    var n := |f|;
    assert f[..n - 1][..n - 2] == f[..n - 2];
    assert f[..n - 1][n - 2] == f[n - 2];
    var c := Crc(f[..n - 2]);
    var mid := Feed(MACHINE, 0xFFFF, f[..n - 1]);
    assert mid == Steps(MACHINE, XorWord(c, f[n - 2]), 8);
    assert Feed(MACHINE, 0xFFFF, f) == Steps(MACHINE, XorWord(mid, f[n - 1]), 8);
    SecondByte(mid, f[n - 1]);
    FirstByte(c, f[n - 2], f[n - 1]);
  }

  /** What the bus sends is what the bus accepts. */
  lemma FinishedIsAccepted(body: seq<Byte>)
    requires |body| >= 2
    ensures Validate(Finished(body)) == |body|
  {
  }

  // ----- what the checksum notices -----

  lemma ErrorAdds(f: seq<Byte>, e: seq<Byte>)
    requires |e| == |f|
    ensures Feed(MACHINE, 0xFFFF, XorBytes(f, e)) == XorWord(Feed(MACHINE, 0xFFFF, f), Feed(MACHINE, 0, e))
  {
    LinearLaw();
    XorZero(0xFFFF);
    FeedLinear(MACHINE, 0xFFFF, 0, f, e);
  }

  /** An error passes exactly when, alone, it leaves the register at zero. */
  lemma ErrorPassesIff(f: seq<Byte>, e: seq<Byte>)
    requires |e| == |f| && Accepted(f)
    ensures Accepted(XorBytes(f, e)) <==> Feed(MACHINE, 0, e) == 0
  {
    AcceptedIffResidueZero(f);
    AcceptedIffResidueZero(XorBytes(f, e));
    ErrorAdds(f, e);
    XorZero(Feed(MACHINE, 0, e));
  }

  /** Every error of odd weight, and every burst of up to sixteen bits, is refused. */
  lemma ErrorsAreRefused(f: seq<Byte>, e: seq<Byte>)
    requires |e| == |f| && Accepted(f)
    requires Weight(FrameBits(e, LowBitFirst)) % 2 == 1 || IsBurst(FrameBits(e, LowBitFirst), 16)
    ensures !Accepted(XorBytes(f, e))
  {
    Laws();
    ErrorsThatShow(MACHINE, e);
    ErrorPassesIff(f, e);
  }
}
