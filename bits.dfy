/**
 * Unsigned integer arithmetic used by the bus: powers of two and the bitwise
 * AND of two non-negative integers (the C++ `&` on `size_t` operands), with
 * the facts about it that the paging code relies on.
 */
module Bits {

  function Pow2(k: nat): (r: nat)
    ensures r >= 1
  {
    if k == 0 then 1 else 2 * Pow2(k - 1)
  }

  /** Bitwise AND, one bit at a time from the least significant end. */
  function BitAnd(a: nat, b: nat): nat
    decreases a, 1
  {
    LowBitsAnd(a, b)
  }

  /** The step of `BitAnd`: the low bits ANDed, the rest shifted down one. */
  function LowBitsAnd(a: nat, b: nat): nat
    decreases a, 0
  {
    if a == 0 || b == 0 then 0
    else 2 * BitAnd(a / 2, b / 2) + (if a % 2 == 1 && b % 2 == 1 then 1 else 0)
  }

  /** A bitwise AND is no larger than either operand. */
  lemma {:induction false} BitAndBounds(a: nat, b: nat)
    ensures BitAnd(a, b) <= a && BitAnd(a, b) <= b
    decreases a
  {
    if a != 0 && b != 0 {
      BitAndBounds(a / 2, b / 2);
    }
  }

  lemma MulAtLeast(d: int, k: int)
    requires d > 0 && k >= 1
    ensures d * k >= d
  {
  }

  /** Euclidean division has one quotient and one remainder. */
  lemma DivModUnique(a: int, d: int, q: int, r: int)
    requires d > 0 && a == d * q + r && 0 <= r < d
    ensures a / d == q && a % d == r
  {
    var q', r' := a / d, a % d;
    assert a == d * q' + r';
    assert d * (q - q') == r' - r;
    if q - q' >= 1 { MulAtLeast(d, q - q'); assert false; }
    if q' - q >= 1 { MulAtLeast(d, q' - q); assert false; }
  }

  lemma ModDouble(a: nat, m: nat, p: nat)
    requires m > 0 && p == 2 * m
    ensures a % p == 2 * ((a / 2) % m) + a % 2
  {
    var h := a / 2;
    assert a == 2 * h + a % 2;
    assert h == m * (h / m) + h % m;
    assert a == (2 * m) * (h / m) + (2 * (h % m) + a % 2);
    DivModUnique(a, 2 * m, h / m, 2 * (h % m) + a % 2);
  }

  lemma BitAndEven(x: nat, b: nat)
    ensures BitAnd(2 * x, b) == 2 * BitAnd(x, b / 2)
  {
    if x != 0 && b != 0 {
      assert (2 * x) / 2 == x && (2 * x) % 2 == 0;
    }
  }

  lemma BitAndOddMask(a: nat, c: nat, mask: nat)
    requires mask == 2 * c + 1
    ensures BitAnd(a, mask) == 2 * BitAnd(a / 2, c) + a % 2
  {
    assert mask / 2 == c && mask % 2 == 1;
  }

  lemma BitAndEvenMask(a: nat, c: nat)
    ensures BitAnd(a, 2 * c) == 2 * BitAnd(a / 2, c)
  {
    if a != 0 && c != 0 {
      assert (2 * c) / 2 == c && (2 * c) % 2 == 0;
    }
  }

  /** Masking with `2^k - 1` keeps the remainder modulo `2^k`. */
  lemma {:induction false} BitAndLowMask(a: nat, k: nat)
    ensures BitAnd(a, Pow2(k) - 1) == a % Pow2(k)
  {
    if k > 0 {
      BitAndLowMask(a / 2, k - 1);
      LowMaskStep(a, Pow2(k - 1), Pow2(k));
    } else {
      assert Pow2(k) - 1 == 0 && BitAnd(a, 0) == 0;
    }
  }

  /** One bit more of mask: the low bit of `a`, then the mask of `a / 2` one bit narrower. */
  lemma LowMaskStep(a: nat, m: nat, p: nat)
    requires m > 0 && p == 2 * m
    requires BitAnd(a / 2, m - 1) == (a / 2) % m
    ensures BitAnd(a, p - 1) == a % p
  {
    BitAndOddMask(a, m - 1, p - 1);
    ModDouble(a, m, p);
  }

  /** Masking an even number is twice masking its half with the halved mask. */
  lemma BitAndHalve(a: nat, x: nat, b: nat)
    requires a == 2 * x
    ensures BitAnd(a, b) == 2 * BitAnd(x, b / 2)
  {
    BitAndEven(x, b);
  }

  /** Masking a multiple of 1024 gives 1024 times the mask of the slot number. */
  lemma BitAndSlot(j: nat, b: nat)
    ensures BitAnd(j * 1024, b) == 1024 * BitAnd(j, b / 1024)
  {
    var b1 := b / 2;
    var b2 := b1 / 2;
    var b3 := b2 / 2;
    var b4 := b3 / 2;
    var b5 := b4 / 2;
    var b6 := b5 / 2;
    var b7 := b6 / 2;
    var b8 := b7 / 2;
    var b9 := b8 / 2;
    assert b9 / 2 == b / 1024;
    BitAndHalve(j * 1024, j * 512, b);
    BitAndHalve(j * 512, j * 256, b1);
    BitAndHalve(j * 256, j * 128, b2);
    BitAndHalve(j * 128, j * 64, b3);
    BitAndHalve(j * 64, j * 32, b4);
    BitAndHalve(j * 32, j * 16, b5);
    BitAndHalve(j * 16, j * 8, b6);
    BitAndHalve(j * 8, j * 4, b7);
    BitAndHalve(j * 4, j * 2, b8);
    BitAndHalve(j * 2, j, b9);
  }

  lemma Pow2Values()
    ensures Pow2(10) == 0x400 && Pow2(13) == 0x2000 && Pow2(14) == 0x4000
  {
  }

  /** `x & 0xc1` keeps bits 0, 6 and 7. */
  lemma PortMask(a: nat)
    ensures BitAnd(a, 0xC1) == a % 2 + 64 * ((a / 64) % 4)
  {
    var a1 := a / 2;
    var a2 := a1 / 2;
    var a3 := a2 / 2;
    var a4 := a3 / 2;
    var a5 := a4 / 2;
    var a6 := a5 / 2;
    var a7 := a6 / 2;
    assert a6 == a / 64;
    BitAndOddMask(a, 0x60, 0xC1);
    BitAndEvenMask(a1, 0x30);
    BitAndEvenMask(a2, 0x18);
    BitAndEvenMask(a3, 0x0C);
    BitAndEvenMask(a4, 0x06);
    BitAndEvenMask(a5, 0x03);
    BitAndOddMask(a6, 0x01, 0x03);
    BitAndOddMask(a7, 0x00, 0x01);
    assert BitAnd(a7 / 2, 0) == 0;
    ModDouble(a6, 2, 4);
    assert BitAnd(a, 0xC1) == 64 * BitAnd(a6, 3) + a % 2;
  }
}
