/** Bytes and their bits. A byte is a number below 256, and the bit operators of the source are
    written by halving: `BitOf(b, k)` is `(b >> k) & 1 == 1`, `LowBits(b, k)` is
    `b & ((1 << k) - 1)`, `FlipBit(b, k)` is `b ^ (1 << k)`, `SetByteBit(b, k)` is `b | (1 << k)`. */
module ByteBits {

  type byte = x: int | 0 <= x < 256

  function Pow2(n: nat): nat {
    if n == 0 then 1 else 2 * Pow2(n - 1)
  }

  predicate BitOf(b: nat, k: nat) {
    if k == 0 then b % 2 == 1 else BitOf(b / 2, k - 1)
  }

  function LowBits(b: nat, keep: nat): (r: nat)
    ensures r <= b
  {
    if keep == 0 then 0 else b % 2 + 2 * LowBits(b / 2, keep - 1)
  }

  function FlipBit(b: nat, k: nat): nat {
    if k == 0 then (if b % 2 == 1 then b - 1 else b + 1) else b % 2 + 2 * FlipBit(b / 2, k - 1)
  }

  lemma {:induction false} FlipBitBound(b: nat, k: nat, n: nat)
    requires b < Pow2(n) && k < n
    ensures FlipBit(b, k) < Pow2(n)
  {
    assert Pow2(n) == 2 * Pow2(n - 1) && b / 2 < Pow2(n - 1);
    if k > 0 {
      FlipBitBound(b / 2, k - 1, n - 1);
      assert FlipBit(b, k) == b % 2 + 2 * FlipBit(b / 2, k - 1);
    }
  }

  lemma ByteBound()
    ensures Pow2(8) == 256
  {
  }

  lemma {:induction false} ZeroBit(j: nat)
    ensures !BitOf(0, j)
  {
    if j > 0 {
      ZeroBit(j - 1);
    }
  }

  lemma {:induction false} LowBitsBit(b: nat, keep: nat, j: nat)
    ensures BitOf(LowBits(b, keep), j) == (j < keep && BitOf(b, j))
  {
    if keep == 0 {
      ZeroBit(j);
    } else if j > 0 {
      LowBitsBit(b / 2, keep - 1, j - 1);
      assert LowBits(b, keep) / 2 == LowBits(b / 2, keep - 1);
    }
  }

  lemma {:induction false} FlipBitBit(b: nat, k: nat, j: nat)
    ensures BitOf(FlipBit(b, k), j) == if j == k then !BitOf(b, j) else BitOf(b, j)
  {
    if k > 0 && j > 0 {
      FlipBitBit(b / 2, k - 1, j - 1);
      assert FlipBit(b, k) / 2 == FlipBit(b / 2, k - 1);
    }
  }

  /** A number below 2^n is determined by its low n bits. */
  lemma {:induction false} NumberFromBits(a: nat, b: nat, n: nat)
    requires a < Pow2(n) && b < Pow2(n)
    requires forall j: nat | j < n :: BitOf(a, j) == BitOf(b, j)
    ensures a == b
  {
    if n > 0 {
      forall j: nat | j < n - 1
        ensures BitOf(a / 2, j) == BitOf(b / 2, j)
      {
        assert BitOf(a, j + 1) == BitOf(b, j + 1);
      }
      NumberFromBits(a / 2, b / 2, n - 1);
      assert BitOf(a, 0) == BitOf(b, 0);
    }
  }

  function FlipByte(b: byte, k: nat): byte
    requires k < 8
  {
    ByteBound();
    FlipBitBound(b, k, 8);
    FlipBit(b, k)
  }

  function SetByteBit(b: byte, k: nat): byte
    requires k < 8
  {
    if BitOf(b, k) then b else FlipByte(b, k)
  }
}
