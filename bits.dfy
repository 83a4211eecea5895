// Natural numbers as binary digits: powers of two and bitwise exclusive or,
// shared by the puzzles that work on machine words.
module Bits {
  function Pow2(k: nat): (r: nat)
    ensures r >= 1
  {
    if k == 0 then 1 else 2 * Pow2(k - 1)
  }

  lemma Twice(q: nat, p: nat)
    ensures q * (2 * p) == 2 * (q * p)
  {
  }

  lemma {:induction false} Pow2Add(m: nat, n: nat)
    ensures Pow2(m + n) == Pow2(m) * Pow2(n)
  {
    if m > 0 {
      Pow2Add(m - 1, n);
    }
  }

  lemma Pow2Byte()
    ensures Pow2(8) == 256
  {
    assert Pow2(1) == 2 && Pow2(2) == 4 && Pow2(3) == 8 && Pow2(4) == 16;
    assert Pow2(5) == 32 && Pow2(6) == 64 && Pow2(7) == 128;
  }

  lemma Pow2Half()
    ensures Pow2(32) == 0x1_0000_0000
  {
    Pow2Byte();
    Pow2Add(8, 8);
    Pow2Add(16, 16);
  }

  /** Bitwise exclusive or, one binary digit at a time. */
  function Xor(x: nat, y: nat): nat
    decreases x + y
  {
    if x == 0 && y == 0 then 0 else 2 * Xor(x / 2, y / 2) + (x % 2 + y % 2) % 2
  }

  /** Xor of two n-bit numbers has n bits. */
  lemma {:induction false} XorBits(x: nat, y: nat, n: nat)
    requires x < Pow2(n) && y < Pow2(n)
    ensures Xor(x, y) < Pow2(n)
    decreases n
  {
    if n > 0 && !(x == 0 && y == 0) {
      XorBits(x / 2, y / 2, n - 1);
    }
  }

  /** The defining step of `Xor` holds for zero as well. */
  lemma XorStep(x: nat, y: nat)
    ensures Xor(x, y) == 2 * Xor(x / 2, y / 2) + (x % 2 + y % 2) % 2
  {
  }

  lemma HalfBit(q: nat, b: nat)
    requires b < 2
    ensures (2 * q + b) / 2 == q && (2 * q + b) % 2 == b
  {
  }

  /** Xor with the same value twice returns the start. */
  lemma {:induction false} XorTwice(x: nat, y: nat)
    ensures Xor(Xor(x, y), y) == x
    decreases x + y
  {
    if !(x == 0 && y == 0) {
      var q, bit := Xor(x / 2, y / 2), (x % 2 + y % 2) % 2;
      var z := Xor(x, y);
      XorStep(x, y);
      assert z == 2 * q + bit;
      HalfBit(q, bit);
      XorStep(z, y);
      assert Xor(z, y) == 2 * Xor(q, y / 2) + (bit + y % 2) % 2;
      XorTwice(x / 2, y / 2);
      assert (bit + y % 2) % 2 == x % 2;
    }
  }
}
