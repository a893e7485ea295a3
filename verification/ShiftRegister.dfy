/**
 * The theory of a cyclic checksum, once for both buses: a register that is fed
 * a message bit by bit and steps linearly. What a checksum notices follows from
 * five laws, and each bus only has to show that its shift loop obeys them.
 */
module ShiftRegister {
  import opened HcpTypes
  import opened Bits

  /**
   * `load` is how a byte enters the register before its eight steps, and
   * `rest(b, n)` is what of it has still to be worked off after `n` of them.
   * `near(c, k)` says that a set bit entered the register `k` steps ago and
   * that nothing since can have cancelled it.
   */
  datatype Machine<!R(!new)> = Machine(
    order: Order,
    width: nat,
    zero: R,
    unit: R,
    xor: (R, R) -> R,
    step: R -> R,
    load: Byte -> R,
    rest: (Byte, nat) -> R,
    parity: R -> bool,
    near: (R, nat) -> bool)

  function FeedBit<R(!new)>(m: Machine<R>, c: R, b: bool): R {
    m.step(if b then m.xor(c, m.unit) else c)
  }

  function FeedBits<R(!new)>(m: Machine<R>, c: R, bits: seq<bool>): R {
    if bits == [] then c else FeedBit(m, FeedBits(m, c, bits[..|bits| - 1]), bits[|bits| - 1])
  }

  function Steps<R(!new)>(m: Machine<R>, c: R, n: nat): R {
    if n == 0 then c else m.step(Steps(m, c, n - 1))
  }

  /** A message through the register, a byte at a time. */
  function Feed<R(!new)>(m: Machine<R>, c: R, data: seq<Byte>): R {
    if data == [] then c
    else Steps(m, m.xor(Feed(m, c, data[..|data| - 1]), m.load(data[|data| - 1])), 8)
  }

  // ----- the laws -----

  ghost predicate Linear<R(!new)>(m: Machine<R>) {
    && (forall x, y :: m.step(m.xor(x, y)) == m.xor(m.step(x), m.step(y)))
    && (forall x, y, a: Byte, b: Byte {:trigger m.xor(m.xor(x, m.load(a)), m.xor(y, m.load(b)))} ::
          m.xor(m.xor(x, y), m.load(XorByte(a, b))) == m.xor(m.xor(x, m.load(a)), m.xor(y, m.load(b))))
  }

  ghost predicate Bitwise<R(!new)>(m: Machine<R>) {
    && (forall b: Byte :: m.rest(b, 0) == m.load(b))
    && (forall x, b: Byte :: m.xor(x, m.rest(b, 8)) == x)
    && (forall x, b: Byte, n: nat :: n < 8 ==>
          m.step(m.xor(x, m.rest(b, n))) == m.xor(FeedBit(m, x, ByteBits(b, m.order)[n]), m.rest(b, n + 1)))
  }

  ghost predicate Lossless<R(!new)>(m: Machine<R>) {
    && (forall x, y :: m.step(x) == m.step(y) ==> x == y)
    && m.step(m.zero) == m.zero
  }

  ghost predicate KeepsParity<R(!new)>(m: Machine<R>) {
    && !m.parity(m.zero)
    && (forall x, b :: m.parity(FeedBit(m, x, b)) == (m.parity(x) != b))
  }

  ghost predicate HoldsBursts<R(!new)>(m: Machine<R>) {
    && 1 <= m.width
    && m.near(FeedBit(m, m.zero, true), 1)
    && (forall x, b, k: nat :: 1 <= k < m.width && m.near(x, k) ==> m.near(FeedBit(m, x, b), k + 1))
    && (forall x, k: nat :: 1 <= k <= m.width && m.near(x, k) ==> x != m.zero)
  }

  ghost predicate Lawful<R(!new)>(m: Machine<R>) {
    Linear(m) && Bitwise(m) && Lossless(m) && KeepsParity(m) && HoldsBursts(m)
  }

  // ----- linearity -----

  lemma {:induction false} StepsLinear<R(!new)>(m: Machine<R>, x: R, y: R, n: nat)
    requires Linear(m)
    ensures Steps(m, m.xor(x, y), n) == m.xor(Steps(m, x, n), Steps(m, y, n))
  {
    if n > 0 {
      StepsLinear(m, x, y, n - 1);
    }
  }

  /** What an error adds to the register does not depend on the message under it. */
  lemma {:induction false} FeedLinear<R(!new)>(m: Machine<R>, c: R, d: R, f: seq<Byte>, e: seq<Byte>)
    requires Linear(m) && |f| == |e|
    ensures Feed(m, m.xor(c, d), XorBytes(f, e)) == m.xor(Feed(m, c, f), Feed(m, d, e))
  {
    if f != [] {
      var n := |f| - 1;
      FeedLinear(m, c, d, f[..n], e[..n]);
      var x, y := Feed(m, c, f[..n]), Feed(m, d, e[..n]);
      var g := XorBytes(f, e);
      assert g[..n] == XorBytes(f[..n], e[..n]);
      StepsLinear(m, m.xor(x, m.load(f[n])), m.xor(y, m.load(e[n])), 8);
    }
  }

  lemma {:induction false} StepsInjective<R(!new)>(m: Machine<R>, x: R, y: R, n: nat)
    requires Lossless(m) && Steps(m, x, n) == Steps(m, y, n)
    ensures x == y
  {
    if n > 0 {
      StepsInjective(m, x, y, n - 1);
    }
  }

  // ----- bytes as bits -----

  lemma {:induction false} FeedBitsAppend<R(!new)>(m: Machine<R>, c: R, s: seq<bool>, t: seq<bool>)
    ensures FeedBits(m, c, s + t) == FeedBits(m, FeedBits(m, c, s), t)
  {
    if t == [] {
      assert s + t == s;
    } else {
      FeedBitsAppend(m, c, s, t[..|t| - 1]);
      assert (s + t)[..|s + t| - 1] == s + t[..|t| - 1];
    }
  }

  lemma {:induction false} ByteAsBits<R(!new)>(m: Machine<R>, c: R, b: Byte, n: nat)
    requires Bitwise(m) && n <= 8
    ensures Steps(m, m.xor(c, m.load(b)), n)
         == m.xor(FeedBits(m, c, ByteBits(b, m.order)[..n]), m.rest(b, n))
  {
    if n > 0 {
      ByteAsBits(m, c, b, n - 1);
      var bits := ByteBits(b, m.order);
      assert bits[..n][..n - 1] == bits[..n - 1];
    }
  }

  lemma {:induction false} FeedAsBits<R(!new)>(m: Machine<R>, c: R, data: seq<Byte>)
    requires Bitwise(m)
    ensures Feed(m, c, data) == FeedBits(m, c, FrameBits(data, m.order))
  {
    if data != [] {
      var n := |data| - 1;
      FeedAsBits(m, c, data[..n]);
      var mid, bits := Feed(m, c, data[..n]), ByteBits(data[n], m.order);
      ByteAsBits(m, mid, data[n], 8);
      assert bits[..8] == bits;
      FeedBitsAppend(m, c, FrameBits(data[..n], m.order), bits);
    }
  }

  // ----- what cannot leave the register at zero -----

  lemma {:induction false} ParityOfFeed<R(!new)>(m: Machine<R>, bits: seq<bool>)
    requires KeepsParity(m)
    ensures m.parity(FeedBits(m, m.zero, bits)) == (Weight(bits) % 2 == 1)
  {
    if bits != [] {
      ParityOfFeed(m, bits[..|bits| - 1]);
    }
  }

  lemma {:induction false} SilenceKeepsZero<R(!new)>(m: Machine<R>, bits: seq<bool>)
    requires Lossless(m) && forall i :: 0 <= i < |bits| ==> !bits[i]
    ensures FeedBits(m, m.zero, bits) == m.zero
  {
    if bits != [] {
      SilenceKeepsZero(m, bits[..|bits| - 1]);
    }
  }

  /** A burst no wider than the register is still in it when it ends, and stays. */
  lemma {:induction false} BurstIsHeld<R(!new)>(m: Machine<R>, bits: seq<bool>, first: nat, n: nat)
    requires Lossless(m) && HoldsBursts(m)
    requires first < n <= |bits| && bits[first]
    requires forall i :: 0 <= i < |bits| && bits[i] ==> first <= i < first + m.width
    ensures FeedBits(m, m.zero, bits[..n]) != m.zero
    ensures n - first <= m.width ==> m.near(FeedBits(m, m.zero, bits[..n]), n - first)
    decreases n
  {
    assert bits[..n][..n - 1] == bits[..n - 1];
    var before, after := FeedBits(m, m.zero, bits[..n - 1]), FeedBits(m, m.zero, bits[..n]);
    assert after == FeedBit(m, before, bits[n - 1]);
    if n == first + 1 {
      SilenceKeepsZero(m, bits[..first]);
    } else {
      BurstIsHeld(m, bits, first, n - 1);
      if n - first <= m.width {
        assert m.near(before, n - 1 - first);
        assert m.near(after, n - first);
      } else {
        assert !bits[n - 1] && after == m.step(before);
        assert m.step(before) == m.step(m.zero) ==> before == m.zero;
      }
    }
  }

  /** An undetected error leaves the register, started from zero, at zero: neither kind does. */
  lemma ErrorsThatShow<R(!new)>(m: Machine<R>, e: seq<Byte>)
    requires Lawful(m)
    requires Weight(FrameBits(e, m.order)) % 2 == 1 || IsBurst(FrameBits(e, m.order), m.width)
    ensures Feed(m, m.zero, e) != m.zero
  {
    var bits := FrameBits(e, m.order);
    FeedAsBits(m, m.zero, e);
    if Weight(bits) % 2 == 1 {
      ParityOfFeed(m, bits);
    } else {
      var first :| 0 <= first < |bits| && bits[first]
        && forall i :: 0 <= i < |bits| && bits[i] ==> first <= i < first + m.width;
      BurstIsHeld(m, bits, first, |bits|);
      assert bits[..|bits|] == bits;
    }
  }
}
