/**
 * The checksum of the newer bus: the shift register of MODBUS over Serial Line
 * V1.02, section 2.5.1.2, low bit first.
 */
module Crc16 {
  import opened HcpTypes
  import opened BitOps
  import opened Bits
  import opened ShiftRegister

  function XorWord(a: Word, b: Word): Word {
    PowValues();
    XorBound(a, b, 16);
    Xor(a, b)
  }

  function Shift(c: Word): Word {
    if c % 2 == 1 then XorWord(c / 2, 0xA001) else c / 2
  }

  /** One of the `k` highest bits is set. */
  predicate Near(c: Word, k: nat) {
    1 <= k <= 16 && c >= Pow2(16 - k)
  }

  const MACHINE: Machine<Word> := Machine<Word>.Machine(
    LowBitFirst, 16, 0, 1,
    (x: Word, y: Word) => XorWord(x, y),
    (c: Word) => Shift(c),
    (b: Byte) => b,
    (b: Byte, n: nat) => Rights(b, n),
    (c: Word) => Odd(c),
    (c: Word, k: nat) => Near(c, k))

  function Crc(data: seq<Byte>): Word {
    Feed(MACHINE, 0xFFFF, data)
  }

  /** The nested shift loops, computing `Crc`. */
  method Compute(data: seq<Byte>) returns (crc: Word)
    ensures crc == Crc(data)
  {
    hide XorWord, Xor;
    crc := 0xFFFF;
    for i := 0 to |data|
      invariant crc == Feed(MACHINE, 0xFFFF, data[..i])
    {
      crc := XorWord(crc, data[i]);
      ghost var start := crc;
      for bit := 0 to 8
        invariant crc == Steps(MACHINE, start, bit)
      {
        crc := if crc % 2 == 1 then XorWord(crc / 2, 0xA001) else crc / 2;
      }
      assert data[..i + 1][..i] == data[..i];
    }
    assert data[..|data|] == data;
  }

  // ----- the laws -----

  lemma ShiftLinear(x: Word, y: Word)
    ensures Shift(XorWord(x, y)) == XorWord(Shift(x), Shift(y))
  {
    var a, b, k := x / 2, y / 2, 0xA001;
    XorHalves(x, y);
    if x % 2 == 1 && y % 2 == 1 {
      XorSwap(a, k, b, k);
      XorSelf(k);
      XorZero(Xor(a, b));
    } else if x % 2 == 1 {
      XorAssoc(a, k, b);
      XorComm(k, b);
      XorAssoc(a, b, k);
    } else {
      XorAssoc(a, b, k);
    }
  }

  lemma LinearLaw()
    ensures Linear(MACHINE)
  {
    forall x: Word, y: Word ensures MACHINE.step(MACHINE.xor(x, y)) == MACHINE.xor(MACHINE.step(x), MACHINE.step(y)) {
      ShiftLinear(x, y);
    }
    forall x: Word, y: Word, a: Byte, b: Byte
      {:trigger MACHINE.xor(MACHINE.xor(x, MACHINE.load(a)), MACHINE.xor(y, MACHINE.load(b)))}
      ensures MACHINE.xor(MACHINE.xor(x, y), MACHINE.load(XorByte(a, b)))
           == MACHINE.xor(MACHINE.xor(x, MACHINE.load(a)), MACHINE.xor(y, MACHINE.load(b)))
    {
      XorSwap(x, y, a, b);
    }
  }

  lemma FeedBitLow(x: Word, r: Word)
    ensures Shift(XorWord(x, r)) == XorWord(FeedBit(MACHINE, x, r % 2 == 1), r / 2)
  {
    XorHalves(x, r);
    XorHalves(x, 1);
    XorZero(x / 2);
    XorAssoc(x / 2, 0xA001, r / 2);
    XorComm(0xA001, r / 2);
    XorAssoc(x / 2, r / 2, 0xA001);
  }

  lemma BitOf(b: Byte, n: nat)
    requires n < 8
    ensures ByteBits(b, LowBitFirst)[n] == (Rights(b, n) % 2 == 1) && Rights(b, n + 1) == Rights(b, n) / 2
  {
    hide Rights;
    assert ByteBits(b, LowBitFirst)[n] == Low(b, n);
    NextRight(b, n);
  }

  lemma NextRight(b: Byte, n: nat)
    ensures Rights(b, n + 1) == Rights(b, n) / 2
  {
  }

  lemma BitwiseLaw()
    ensures Bitwise(MACHINE)
  {
    hide Xor, Shift, ByteBits;
    forall x: Word, b: Byte ensures MACHINE.xor(x, MACHINE.rest(b, 8)) == x {
      XorZero(x);
      RightsShrink(b, 8);
      PowValues();
    }
    forall x: Word, b: Byte, n: nat | n < 8
      ensures MACHINE.step(MACHINE.xor(x, MACHINE.rest(b, n)))
           == MACHINE.xor(FeedBit(MACHINE, x, ByteBits(b, MACHINE.order)[n]), MACHINE.rest(b, n + 1))
    {
      BitOf(b, n);
      FeedBitLow(x, Rights(b, n));
    }
  }

  /** The tap at the top tells afterwards whether the polynomial was fed back. */
  lemma FeedbackIsSeen(c: Word)
    ensures (Shift(c) >= 0x8000) == (c % 2 == 1)
  {
    PowValues();
    UpValues(0);
    UpValues(1);
    XorSplit(0, c / 2, 1, 0x2001, 15);
    assert Xor(0, 1) == 1;
  }

  lemma LosslessLaw()
    ensures Lossless(MACHINE)
  {
    forall x: Word, y: Word | MACHINE.step(x) == MACHINE.step(y) ensures x == y {
      FeedbackIsSeen(x);
      FeedbackIsSeen(y);
      XorCancel(x / 2, 0xA001);
      XorCancel(y / 2, 0xA001);
    }
  }

  lemma OddConstants()
    ensures Odd(0xA001) && Odd(1)
  {
    assert !Odd(0x5) && !Odd(0x50) && !Odd(0x500) && !Odd(0x5000);
  }

  lemma ParityLaw()
    ensures KeepsParity(MACHINE)
  {
    OddConstants();
    forall x: Word, b: bool ensures MACHINE.parity(FeedBit(MACHINE, x, b)) == (MACHINE.parity(x) != b) {
      var c := if b then XorWord(x, 1) else x;
      OddXor(x, 1);
      OddXor(c / 2, 0xA001);
    }
  }

  lemma BurstLaw()
    ensures HoldsBursts(MACHINE)
  {
    XorZero(0);
    assert MACHINE.near(FeedBit(MACHINE, 0, true), 1) by {
      XorHalves(0, 1);
      FeedbackIsSeen(XorWord(0, 1));
      PowValues();
    }
    forall x: Word, b: bool, k: nat | 1 <= k < 16 && MACHINE.near(x, k)
      ensures MACHINE.near(FeedBit(MACHINE, x, b), k + 1)
    {
      var c := if b then XorWord(x, 1) else x;
      XorHalves(x, 1);
      XorZero(x / 2);
      assert c / 2 == x / 2 >= Pow2(15 - k);
      FeedbackIsSeen(c);
      PowGrows(15 - k, 15);
    }
  }

  lemma Laws()
    ensures Lawful(MACHINE)
  {
    LinearLaw();
    BitwiseLaw();
    LosslessLaw();
    ParityLaw();
    BurstLaw();
  }
}
