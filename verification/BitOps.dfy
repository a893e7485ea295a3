/** Bitwise operations on unbounded naturals, low bit first. */
module BitOps {

  function Pow2(n: nat): (p: nat)
    ensures p >= 1
  {
    if n == 0 then 1 else 2 * Pow2(n - 1)
  }

  lemma PowValues()
    ensures Pow2(0) == 1 && Pow2(1) == 2 && Pow2(2) == 4 && Pow2(3) == 8
    ensures Pow2(4) == 0x10 && Pow2(5) == 0x20 && Pow2(6) == 0x40 && Pow2(7) == 0x80
    ensures Pow2(8) == 0x100 && Pow2(15) == 0x8000 && Pow2(16) == 0x1_0000
  {
    assert Pow2(4) == 0x10 && Pow2(8) == 0x100 && Pow2(12) == 0x1000;
  }

  lemma {:induction false} PowGrows(a: nat, b: nat)
    requires a <= b
    ensures Pow2(a) <= Pow2(b)
  {
    if a < b {
      PowGrows(a, b - 1);
    }
  }

  function Xor(a: nat, b: nat): nat {
    if a == 0 && b == 0 then 0
    else 2 * Xor(a / 2, b / 2) + (if a % 2 != b % 2 then 1 else 0)
  }

  function Or(a: nat, b: nat): nat {
    if a == 0 && b == 0 then 0
    else 2 * Or(a / 2, b / 2) + (if a % 2 == 1 || b % 2 == 1 then 1 else 0)
  }

  /** Whether an odd number of bits is set. */
  function Odd(a: nat): bool {
    if a == 0 then false else (a % 2 == 1) != Odd(a / 2)
  }

  lemma XorHalves(a: nat, b: nat)
    ensures Xor(a, b) / 2 == Xor(a / 2, b / 2)
    ensures Xor(a, b) % 2 == (if a % 2 != b % 2 then 1 else 0)
  {
  }

  lemma {:induction false} XorComm(a: nat, b: nat)
    ensures Xor(a, b) == Xor(b, a)
  {
    if a != 0 || b != 0 {
      XorComm(a / 2, b / 2);
    }
  }

  lemma {:induction false} XorAssoc(a: nat, b: nat, c: nat)
    ensures Xor(Xor(a, b), c) == Xor(a, Xor(b, c))
    decreases a + b + c
  {
    if a != 0 || b != 0 || c != 0 {
      XorHalves(a, b);
      XorHalves(b, c);
      XorHalves(Xor(a, b), c);
      XorHalves(a, Xor(b, c));
      XorAssoc(a / 2, b / 2, c / 2);
    }
  }

  lemma {:induction false} XorZero(a: nat)
    ensures Xor(a, 0) == a && Xor(0, a) == a
  {
    if a != 0 {
      XorZero(a / 2);
    }
  }

  lemma {:induction false} XorSelf(a: nat)
    ensures Xor(a, a) == 0
  {
    if a != 0 {
      XorSelf(a / 2);
    }
  }

  lemma XorCancel(a: nat, k: nat)
    ensures Xor(Xor(a, k), k) == a
  {
    XorAssoc(a, k, k);
    XorSelf(k);
    XorZero(a);
  }

  /** Two pairs can be xored in either order. */
  lemma XorSwap(a: nat, b: nat, c: nat, d: nat)
    ensures Xor(Xor(a, b), Xor(c, d)) == Xor(Xor(a, c), Xor(b, d))
  {
    XorAssoc(a, b, Xor(c, d));
    XorAssoc(b, c, d);
    XorComm(b, c);
    XorAssoc(c, b, d);
    XorAssoc(a, c, Xor(b, d));
  }

  /** The upper and the lower bits do not meet. */
  lemma {:induction false} XorSplit(h: nat, a: nat, g: nat, b: nat, n: nat)
    requires a < Pow2(n) && b < Pow2(n)
    ensures Xor(Up(h, n) + a, Up(g, n) + b) == Up(Xor(h, g), n) + Xor(a, b)
  {
    if n > 0 {
      XorSplit(h, a / 2, g, b / 2, n - 1);
      assert (Up(h, n) + a) / 2 == Up(h, n - 1) + a / 2 && (Up(h, n) + a) % 2 == a % 2;
      assert (Up(g, n) + b) / 2 == Up(g, n - 1) + b / 2 && (Up(g, n) + b) % 2 == b % 2;
      XorHalves(Up(h, n) + a, Up(g, n) + b);
      XorHalves(a, b);
    }
  }

  /** A number `n` places up. */
  function Up(h: nat, n: nat): nat {
    if n == 0 then h else 2 * Up(h, n - 1)
  }

  lemma UpValues(h: nat)
    ensures Up(h, 7) == h * 0x80 && Up(h, 8) == h * 0x100 && Up(h, 15) == h * 0x8000
  {
    assert Up(h, 1) == h * 2;
    assert Up(h, 2) == h * 4;
    assert Up(h, 4) == h * 0x10;
    assert Up(h, 6) == h * 0x40;
    assert Up(h, 8) == h * 0x100;
    assert Up(h, 10) == h * 0x400;
    assert Up(h, 12) == h * 0x1000;
    assert Up(h, 14) == h * 0x4000;
  }

  lemma {:induction false} XorBound(a: nat, b: nat, n: nat)
    requires a < Pow2(n) && b < Pow2(n)
    ensures Xor(a, b) < Pow2(n)
  {
    if n > 0 {
      XorBound(a / 2, b / 2, n - 1);
    }
  }

  lemma {:induction false} OddXor(a: nat, b: nat)
    ensures Odd(Xor(a, b)) == (Odd(a) != Odd(b))
  {
    if a != 0 || b != 0 {
      XorHalves(a, b);
      OddXor(a / 2, b / 2);
    }
  }

  /** The upper and the lower bits do not meet. */
  lemma {:induction false} OrSplit(h: nat, a: nat, g: nat, b: nat, n: nat)
    requires a < Pow2(n) && b < Pow2(n)
    ensures Or(Up(h, n) + a, Up(g, n) + b) == Up(Or(h, g), n) + Or(a, b)
  {
    if n > 0 {
      OrSplit(h, a / 2, g, b / 2, n - 1);
      assert (Up(h, n) + a) / 2 == Up(h, n - 1) + a / 2 && (Up(h, n) + a) % 2 == a % 2;
      assert (Up(g, n) + b) / 2 == Up(g, n - 1) + b / 2 && (Up(g, n) + b) % 2 == b % 2;
      OrHalves(Up(h, n) + a, Up(g, n) + b);
      OrHalves(a, b);
    }
  }

  lemma OrHalves(a: nat, b: nat)
    ensures Or(a, b) / 2 == Or(a / 2, b / 2)
    ensures Or(a, b) % 2 == (if a % 2 == 1 || b % 2 == 1 then 1 else 0)
  {
  }

  lemma {:induction false} OrZero(a: nat)
    ensures Or(a, 0) == a && Or(0, a) == a
  {
    if a != 0 {
      OrZero(a / 2);
    }
  }

  lemma {:induction false} OrBound(a: nat, b: nat, n: nat)
    requires a < Pow2(n) && b < Pow2(n)
    ensures Or(a, b) < Pow2(n)
  {
    if n > 0 {
      OrBound(a / 2, b / 2, n - 1);
    }
  }
}
