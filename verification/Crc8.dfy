/** The checksum of the older bus: eight bits, high bit first, starting at 0xF3. */
module Crc8 {
  import opened HcpTypes
  import opened BitOps
  import opened Bits
  import opened ShiftRegister

  function Shift(c: Byte): Byte {
    if c >= 0x80 then XorByte(Left(c), 0x07) else Left(c)
  }

  /** One of the `k` lowest bits is set. */
  predicate Near(c: Byte, k: nat) {
    exists j :: 0 <= j < k <= 8 && Low(c, j)
  }

  const MACHINE: Machine<Byte> := Machine<Byte>.Machine(
    HighBitFirst, 8, 0, 0x80,
    (x: Byte, y: Byte) => XorByte(x, y),
    (c: Byte) => Shift(c),
    (b: Byte) => b,
    (b: Byte, n: nat) => Lefts(b, n),
    (c: Byte) => Odd(c),
    (c: Byte, k: nat) => Near(c, k))

  function Crc(data: seq<Byte>): Byte {
    Feed(MACHINE, 0xF3, data)
  }

  /** The nested shift loops, computing `Crc`. */
  method Compute(data: seq<Byte>) returns (crc: Byte)
    ensures crc == Crc(data)
  {
    hide XorByte, Xor;
    crc := 0xF3;
    for i := 0 to |data|
      invariant crc == Feed(MACHINE, 0xF3, data[..i])
    {
      crc := XorByte(crc, data[i]);
      ghost var start := crc;
      for bit := 0 to 8
        invariant crc == Steps(MACHINE, start, bit)
      {
        crc := if crc >= 0x80 then XorByte(Left(crc), 0x07) else Left(crc);
      }
      assert data[..i + 1][..i] == data[..i];
    }
    assert data[..|data|] == data;
  }

  // ----- the laws -----

  function Below(x: Byte): Byte {
    if x >= 0x80 then x - 0x80 else x
  }

  /** Seven low bits and the one on top of them. */
  lemma TopBit(x: Byte, y: Byte)
    ensures (XorByte(x, y) >= 0x80) == ((x >= 0x80) != (y >= 0x80))
    ensures Below(XorByte(x, y)) == Xor(Below(x), Below(y))
  {
    PowValues();
    var h, g := if x >= 0x80 then 1 else 0, if y >= 0x80 then 1 else 0;
    UpValues(h);
    UpValues(g);
    UpValues(Xor(h, g));
    XorSplit(h, Below(x), g, Below(y), 7);
    XorBound(Below(x), Below(y), 7);
    assert Xor(1, 1) == 0 && Xor(1, 0) == 1 && Xor(0, 1) == 1;
  }

  lemma LeftLinear(x: Byte, y: Byte)
    ensures XorByte(Left(x), Left(y)) == Left(XorByte(x, y))
  {
    TopBit(x, y);
    assert Left(x) == 2 * Below(x) && Left(y) == 2 * Below(y);
    XorHalves(2 * Below(x), 2 * Below(y));
  }

  lemma ShiftLinear(x: Byte, y: Byte)
    ensures Shift(XorByte(x, y)) == XorByte(Shift(x), Shift(y))
  {
    TopBit(x, y);
    LeftLinear(x, y);
    var a, b, k := Left(x), Left(y), 0x07;
    if x >= 0x80 && y >= 0x80 {
      XorSwap(a, k, b, k);
      XorSelf(k);
      XorZero(Xor(a, b));
    } else if x >= 0x80 {
      XorAssoc(a, k, b);
      XorComm(k, b);
      XorAssoc(a, b, k);
    } else {
      XorAssoc(a, b, k);
    }
  }

  lemma LinearLaw()
    ensures Linear(MACHINE)
  {
    forall x: Byte, y: Byte ensures MACHINE.step(MACHINE.xor(x, y)) == MACHINE.xor(MACHINE.step(x), MACHINE.step(y)) {
      ShiftLinear(x, y);
    }
    forall x: Byte, y: Byte, a: Byte, b: Byte
      {:trigger MACHINE.xor(MACHINE.xor(x, MACHINE.load(a)), MACHINE.xor(y, MACHINE.load(b)))}
      ensures MACHINE.xor(MACHINE.xor(x, y), MACHINE.load(XorByte(a, b)))
           == MACHINE.xor(MACHINE.xor(x, MACHINE.load(a)), MACHINE.xor(y, MACHINE.load(b)))
    {
      XorSwap(x, y, a, b);
    }
  }

  lemma SplitTop(r: Byte)
    ensures r == XorByte(if r >= 0x80 then 0x80 else 0, Below(r))
  {
    PowValues();
    XorZero(Below(r));
    if r >= 0x80 {
      UpValues(1);
      UpValues(0);
      XorSplit(1, 0, 0, Below(r), 7);
      assert Xor(1, 0) == 1;
    }
  }

  lemma FeedBitHigh(x: Byte, r: Byte)
    ensures Shift(XorByte(x, r)) == XorByte(FeedBit(MACHINE, x, r >= 0x80), Left(r))
  {
    var bit: Byte := if r >= 0x80 then 0x80 else 0;
    var y := XorByte(x, bit);
    assert FeedBit(MACHINE, x, r >= 0x80) == Shift(y) by {
      XorZero(x);
    }
    assert XorByte(x, r) == XorByte(y, Below(r)) by {
      SplitTop(r);
      XorAssoc(x, bit, Below(r));
    }
    ShiftLinear(y, Below(r));
    assert Shift(Below(r)) == Left(r);
  }

  lemma HighIsNext(b: Byte, n: nat)
    requires n < 8
    ensures ByteBits(b, HighBitFirst)[n] == High(b, n)
  {
  }

  lemma BitwiseLaw()
    ensures Bitwise(MACHINE)
  {
    forall x: Byte, b: Byte ensures MACHINE.xor(x, MACHINE.rest(b, 8)) == x {
      XorZero(x);
      NothingLeft(b);
    }
    forall x: Byte, b: Byte, n: nat | n < 8
      ensures MACHINE.step(MACHINE.xor(x, MACHINE.rest(b, n)))
           == MACHINE.xor(FeedBit(MACHINE, x, ByteBits(b, MACHINE.order)[n]), MACHINE.rest(b, n + 1))
    {
      var r := Lefts(b, n);
      assert MACHINE.step(MACHINE.xor(x, MACHINE.rest(b, n))) == Shift(XorByte(x, r));
      assert MACHINE.rest(b, n + 1) == Left(r);
      HighIsNext(b, n);
      FeedBitHigh(x, r);
    }
  }

  /** The tap at the bottom tells afterwards whether the polynomial was fed back. */
  lemma FeedbackIsSeen(c: Byte)
    ensures (Shift(c) % 2 == 1) == (c >= 0x80)
  {
    XorHalves(Left(c), 0x07);
  }

  lemma LosslessLaw()
    ensures Lossless(MACHINE)
  {
    forall x: Byte, y: Byte | MACHINE.step(x) == MACHINE.step(y) ensures x == y {
      FeedbackIsSeen(x);
      FeedbackIsSeen(y);
      XorCancel(Left(x), 0x07);
      XorCancel(Left(y), 0x07);
    }
  }

  lemma {:induction false} OddSplit(h: nat, a: nat, n: nat)
    requires a < Pow2(n)
    ensures Odd(Up(h, n) + a) == (Odd(h) != Odd(a))
  {
    if n > 0 {
      OddSplit(h, a / 2, n - 1);
    }
  }

  lemma ParityLaw()
    ensures KeepsParity(MACHINE)
  {
    PowValues();
    assert Odd(0x07) && Odd(1);
    UpValues(0);
    UpValues(1);
    OddSplit(1, 0, 7);
    forall x: Byte, b: bool ensures MACHINE.parity(FeedBit(MACHINE, x, b)) == (MACHINE.parity(x) != b) {
      var c := if b then XorByte(x, 0x80) else x;
      OddXor(x, 0x80);
      OddSplit(if c >= 0x80 then 1 else 0, Below(c), 7);
      assert Left(c) == 2 * Below(c);
      OddXor(Left(c), 0x07);
    }
  }

  lemma LowOfBelow(x: Byte, j: nat)
    requires j < 7
    ensures Low(x, j) == Low(Below(x), j)
  {
    if x >= 0x80 {
      RightsOfTop(x - 0x80, j);
    }
  }

  lemma NearSteps(x: Byte, b: bool, k: nat)
    requires 1 <= k < 8 && Near(x, k)
    ensures Near(FeedBit(MACHINE, x, b), k + 1)
  {
    var c := if b then XorByte(x, 0x80) else x;
    assert Below(c) == Below(x) by {
      TopBit(x, 0x80);
      XorZero(Below(x));
    }
    FeedbackIsSeen(c);
    if c >= 0x80 {
      assert Low(Shift(c), 0);
    } else {
      var j :| 0 <= j < k && Low(x, j);
      LowOfBelow(x, j);
      RightsOfHalf(2 * c, j);
      assert Low(Shift(c), j + 1);
    }
  }

  lemma {:induction false} ZeroHasNoBits(j: nat)
    ensures Rights(0, j) == 0
  {
    if j > 0 {
      ZeroHasNoBits(j - 1);
    }
  }

  lemma BurstLaw()
    ensures HoldsBursts(MACHINE)
  {
    assert Near(FeedBit(MACHINE, 0, true), 1) by {
      XorZero(0x80);
      FeedbackIsSeen(0x80);
      assert Low(Shift(0x80), 0);
    }
    forall x: Byte, b: bool, k: nat | 1 <= k < 8 && MACHINE.near(x, k)
      ensures MACHINE.near(FeedBit(MACHINE, x, b), k + 1)
    {
      NearSteps(x, b, k);
    }
    forall x: Byte, k: nat | 1 <= k <= 8 && MACHINE.near(x, k) ensures x != 0 {
      var j :| 0 <= j < k && Low(x, j);
      ZeroHasNoBits(j);
    }
  }

  lemma Laws()
    ensures Lawful(MACHINE)
  {
    LinearLaw();
    BitwiseLaw();
    LosslessLaw();
    ParityLaw();
    BurstLaw();
  }
}
