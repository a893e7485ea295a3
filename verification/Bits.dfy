/** Frames as the bits that cross the wire, and the errors that can be laid over them. */
module Bits {
  import opened HcpTypes
  import opened BitOps

  datatype Order = LowBitFirst | HighBitFirst

  /** One place to the left in eight bits; the top bit falls out. */
  function Left(b: Byte): Byte {
    if b >= 0x80 then 2 * b - 0x100 else 2 * b
  }

  function Lefts(b: Byte, n: nat): Byte {
    if n == 0 then b else Left(Lefts(b, n - 1))
  }

  function Rights(b: Byte, n: nat): Byte {
    if n == 0 then b else Rights(b, n - 1) / 2
  }

  function Low(b: Byte, n: nat): bool {
    Rights(b, n) % 2 == 1
  }

  function High(b: Byte, n: nat): bool {
    Lefts(b, n) >= 0x80
  }

  function ByteBits(b: Byte, o: Order): (r: seq<bool>)
    ensures |r| == 8
  {
    match o
    case LowBitFirst => [Low(b, 0), Low(b, 1), Low(b, 2), Low(b, 3), Low(b, 4), Low(b, 5), Low(b, 6), Low(b, 7)]
    case HighBitFirst => [High(b, 0), High(b, 1), High(b, 2), High(b, 3),
                          High(b, 4), High(b, 5), High(b, 6), High(b, 7)]
  }

  lemma {:induction false} RightsShrink(b: Byte, n: nat)
    requires n <= 8
    ensures Rights(b, n) < Pow2(8 - n)
  {
    PowValues();
    if n > 0 {
      RightsShrink(b, n - 1);
    }
  }

  lemma {:induction false} RightsOfHalf(b: Byte, n: nat)
    ensures Rights(b / 2, n) == Rights(b, n + 1)
  {
    if n > 0 {
      RightsOfHalf(b, n - 1);
    }
  }

  /** The top bit comes down a place a time and meets no lower one. */
  lemma {:induction false} RightsOfTop(y: Byte, n: nat)
    requires y < 0x80 && n <= 7
    ensures Rights(y + 0x80, n) == Rights(y, n) + Pow2(7 - n)
  {
    PowValues();
    if n > 0 {
      RightsOfTop(y, n - 1);
    }
  }

  lemma HalfLeft(b: Byte)
    ensures exists k: nat {:trigger 0x10 * k} :: Lefts(b, 4) == 0x10 * k
  {
    var k1: nat := if b >= 0x80 then b - 0x80 else b;
    var k2: nat := if k1 >= 0x40 then k1 - 0x40 else k1;
    var k3: nat := if k2 >= 0x20 then k2 - 0x20 else k2;
    var k4: nat := if k3 >= 0x10 then k3 - 0x10 else k3;
    assert Lefts(b, 1) == 2 * k1;
    assert Lefts(b, 2) == 4 * k2;
    assert Lefts(b, 3) == 8 * k3;
    assert Lefts(b, 4) == 0x10 * k4;
  }

  /** After eight places nothing of the byte is left in the register. */
  lemma NothingLeft(b: Byte)
    ensures Lefts(b, 8) == 0
  {
    HalfLeft(b);
    var k4: nat :| Lefts(b, 4) == 0x10 * k4;
    var k5 := if k4 >= 8 then k4 - 8 else k4;
    var k6 := if k5 >= 4 then k5 - 4 else k5;
    var k7 := if k6 >= 2 then k6 - 2 else k6;
    assert Lefts(b, 5) == 0x20 * k5;
    assert Lefts(b, 6) == 0x40 * k6;
    assert Lefts(b, 7) == 0x80 * k7;
  }

  /** The bits of a frame in the order they are sent. */
  function FrameBits(f: seq<Byte>, o: Order): (r: seq<bool>)
    ensures |r| == 8 * |f|
  {
    if f == [] then [] else FrameBits(f[..|f| - 1], o) + ByteBits(f[|f| - 1], o)
  }

  /** A frame with an error pattern laid over it. */
  function XorBytes(f: seq<Byte>, e: seq<Byte>): (r: seq<Byte>)
    requires |f| == |e|
    ensures |r| == |f|
    ensures forall i :: 0 <= i < |f| ==> r[i] == XorByte(f[i], e[i])
  {
    if f == [] then [] else XorBytes(f[..|f| - 1], e[..|e| - 1]) + [XorByte(f[|f| - 1], e[|e| - 1])]
  }

  function XorByte(a: Byte, b: Byte): Byte {
    PowValues();
    XorBound(a, b, 8);
    Xor(a, b)
  }

  /** How many bits are set. */
  function Weight(bits: seq<bool>): nat {
    if bits == [] then 0 else Weight(bits[..|bits| - 1]) + (if bits[|bits| - 1] then 1 else 0)
  }

  /** At least one bit is set, and all that are set lie within `width` consecutive ones. */
  ghost predicate IsBurst(bits: seq<bool>, width: nat) {
    exists first ::
      && 0 <= first < |bits|
      && bits[first]
      && forall i :: 0 <= i < |bits| && bits[i] ==> first <= i < first + width
  }
}
