/** Go's bitwise operators `|`, `&` and `^` on unsigned values, defined bit
    by bit over a fixed width, with the identities that the emulator relies
    on: a mask of low ones keeps the remainder, and an exclusive-or with all
    ones is the complement. */
module Bits {
  import opened Base

  function Pow2(n: nat): (r: nat)
    ensures r >= 1
  {
    if n == 0 then 1 else 2 * Pow2(n - 1)
  }

  lemma Pow2Values()
    ensures Pow2(1) == 2 && Pow2(4) == 16 && Pow2(8) == 0x100
  {
    assert Pow2(2) == 4;
    assert Pow2(4) == 16;
    assert Pow2(6) == 64;
  }

  datatype BitOp = Or | And | Xor

  /** What the operator does to one pair of bits. */
  function Combine(op: BitOp, x: bool, y: bool): bool {
    match op
    case Or => x || y
    case And => x && y
    case Xor => x != y
  }

  /** Bit `k` of `a`, counting from the least significant bit. */
  function Bit(a: nat, k: nat): bool {
    if k == 0 then a % 2 == 1 else Bit(a / 2, k - 1)
  }

  /** `op` applied to the low `width` bits of `a` and `b`. */
  function Bitwise(op: BitOp, a: nat, b: nat, width: nat): (r: nat)
    ensures r < Pow2(width)
  {
    if width == 0 then 0
    else 2 * Bitwise(op, a / 2, b / 2, width - 1) + (if Combine(op, a % 2 == 1, b % 2 == 1) then 1 else 0)
  }

  /** The bitwise operators on bytes. */
  function ByteOp(op: BitOp, a: Byte, b: Byte): (r: Byte)
    ensures forall k :: 0 <= k < 8 ==> Bit(r, k) == Combine(op, Bit(a, k), Bit(b, k))
  {
    Pow2Values();
    forall k | 0 <= k < 8 ensures Bit(Bitwise(op, a, b, 8), k) == Combine(op, Bit(a, k), Bit(b, k)) {
      BitwiseBit(op, a, b, 8, k);
    }
    Bitwise(op, a, b, 8)
  }

  /** Each bit of the result below the width is `op` of the operands' bits. */
  lemma {:induction false} BitwiseBit(op: BitOp, a: nat, b: nat, width: nat, k: nat)
    requires k < width
    ensures Bit(Bitwise(op, a, b, width), k) == Combine(op, Bit(a, k), Bit(b, k))
  {
    var rest := Bitwise(op, a / 2, b / 2, width - 1);
    var low := if Combine(op, a % 2 == 1, b % 2 == 1) then 1 else 0;
    assert Bitwise(op, a, b, width) == 2 * rest + low;
    assert (2 * rest + low) / 2 == rest;
    if k > 0 {
      BitwiseBit(op, a / 2, b / 2, width - 1, k - 1);
    }
  }

  /** Every bit of `Pow2(n) - 1` below `n` is set. */
  lemma {:induction false} AllOnesHalves(n: nat)
    requires n > 0
    ensures (Pow2(n) - 1) / 2 == Pow2(n - 1) - 1 && (Pow2(n) - 1) % 2 == 1
  {
  }

  /** An exclusive-or with all ones complements: `a ^ 0xFF == 255 - a` on a byte. */
  lemma {:induction false} XorAllOnes(a: nat, n: nat)
    requires a < Pow2(n)
    ensures Bitwise(Xor, a, Pow2(n) - 1, n) == Pow2(n) - 1 - a
  {
    if n > 0 {
      AllOnesHalves(n);
      XorAllOnes(a / 2, n - 1);
    }
  }

  /** An and with zero clears every bit. */
  lemma {:induction false} AndZero(a: nat, n: nat)
    ensures Bitwise(And, a, 0, n) == 0
  {
    if n > 0 {
      AndZero(a / 2, n - 1);
    }
  }

  /** A positive multiple of a positive number is at least that number. */
  lemma MulAtLeast(d: int, x: int)
    requires d > 0
    ensures x >= 1 ==> d * x >= d
  {
    if x >= 1 {
      assert d * x == d + d * (x - 1);
    }
  }

  /** Euclidean division is unique: a quotient and a remainder in range are the ones `/` and `%` give. */
  lemma DivModUnique(a: int, d: int, q: int, r: int)
    requires d > 0 && a == d * q + r && 0 <= r < d
    ensures a / d == q && a % d == r
  {
    var q', r' := a / d, a % d;
    assert d * (q - q') == r' - r;
    MulAtLeast(d, q - q');
    MulAtLeast(d, q' - q);
  }

  /** Dividing by 2 and then reducing keeps the remainder modulo `2 * m`. */
  lemma HalveMod(a: nat, m: nat)
    requires m > 0
    ensures a % (2 * m) == 2 * ((a / 2) % m) + a % 2
  {
    var q, u := a / 2, (a / 2) % m;
    var t := q / m;
    assert q == m * t + u;
    assert a == (2 * m) * t + (2 * u + a % 2);
    DivModUnique(a, 2 * m, t, 2 * u + a % 2);
  }

  /** An and with a mask of the `k` low ones keeps the remainder modulo `2^k`:
      `a & 0x0F == a % 16` and `a & 0x01 == a % 2` on a byte. */
  lemma {:induction false} AndLowMask(a: nat, k: nat, n: nat)
    requires k <= n
    ensures Bitwise(And, a, Pow2(k) - 1, n) == a % Pow2(k)
  {
    if k == 0 {
      AndZero(a, n);
    } else {
      var half := Pow2(k - 1);
      var mask := Pow2(k) - 1;
      AllOnesHalves(k);
      assert mask / 2 == half - 1 && mask % 2 == 1;
      assert Bitwise(And, a, mask, n) == 2 * Bitwise(And, a / 2, half - 1, n - 1) + a % 2;
      AndLowMask(a / 2, k - 1, n - 1);
      HalveMod(a, half);
      assert Pow2(k) == 2 * half;
      assert a % Pow2(k) == a % (2 * half);
    }
  }

  /** The two masks the emulator applies to bytes. */
  lemma ByteMasks(a: Byte)
    ensures ByteOp(And, a, 0x0F) == a % 16
    ensures ByteOp(And, a, 0x01) == a % 2
    ensures ByteOp(Xor, a, 0xFF) == 0xFF - a
  {
    Pow2Values();
    AndLowMask(a, 4, 8);
    AndLowMask(a, 1, 8);
    XorAllOnes(a, 8);
  }
}
