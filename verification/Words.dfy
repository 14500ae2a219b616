/** uint64 words as numbers below 2^64, with Go's `&`, `|`, `<<` and `>>` defined bit by bit. */
module Words {

  function Pow2(n: nat): (p: nat)
    ensures p >= 1
  {
    if n == 0 then 1 else 2 * Pow2(n - 1)
  }

  const TWO64: nat := 0x1_0000_0000_0000_0000

  type Word = v: nat | v < TWO64

  predicate Bit(v: nat, k: nat)
    decreases k
  {
    if k == 0 then v % 2 == 1 else Bit(v / 2, k - 1)
  }

  function And(a: nat, b: nat): nat {
    if a == 0 || b == 0 then 0 else 2 * And(a / 2, b / 2) + (if a % 2 == 1 && b % 2 == 1 then 1 else 0)
  }

  function Or(a: nat, b: nat): nat {
    if a == 0 then b else if b == 0 then a
    else 2 * Or(a / 2, b / 2) + (if a % 2 == 1 || b % 2 == 1 then 1 else 0)
  }

  /** `v << n`: Go defines a shift by n as n shifts by one, so counts of 64 and more give 0. */
  function Shl(v: Word, n: nat): Word
    decreases n
  {
    if n == 0 then v else Shl(2 * v % TWO64, n - 1)
  }

  /** `v >> n`, likewise. */
  function Shr(v: Word, n: nat): Word
    decreases n
  {
    if n == 0 then v else Shr(v / 2, n - 1)
  }

  lemma {:induction false} BitZero(k: nat)
    ensures !Bit(0, k)
  {
    if k != 0 {
      BitZero(k - 1);
    }
  }

  lemma {:induction false} BitOr(a: nat, b: nat, k: nat)
    ensures Bit(Or(a, b), k) == (Bit(a, k) || Bit(b, k))
    decreases k
  {
    BitZero(k);
    if a != 0 && b != 0 && k != 0 {
      assert Or(a, b) / 2 == Or(a / 2, b / 2);
      BitOr(a / 2, b / 2, k - 1);
    }
  }

  lemma {:induction false} BitAnd(a: nat, b: nat, k: nat)
    ensures Bit(And(a, b), k) == (Bit(a, k) && Bit(b, k))
    decreases k
  {
    BitZero(k);
    if a != 0 && b != 0 && k != 0 {
      assert And(a, b) / 2 == And(a / 2, b / 2);
      BitAnd(a / 2, b / 2, k - 1);
    }
  }

  lemma {:induction false} OrBelow(a: nat, b: nat, n: nat)
    requires a < Pow2(n) && b < Pow2(n)
    ensures Or(a, b) < Pow2(n)
    decreases n
  {
    if a != 0 && b != 0 {
      OrBelow(a / 2, b / 2, n - 1);
    }
  }

  lemma Pow64()
    ensures Pow2(63) * 2 == Pow2(64) == TWO64
  {
    assert Pow2(8) == 0x100;
    assert Pow2(16) == 0x1_0000;
    assert Pow2(24) == 0x100_0000;
    assert Pow2(32) == 0x1_0000_0000;
    assert Pow2(40) == 0x100_0000_0000;
    assert Pow2(48) == 0x1_0000_0000_0000;
    assert Pow2(56) == 0x100_0000_0000_0000;
  }

  /** The `|` of two words is a word. */
  lemma OrWord(a: Word, b: Word)
    ensures Or(a, b) < TWO64
  {
    Pow64();
    OrBelow(a, b, 64);
  }

  lemma ModHalf(v: nat, m: nat)
    requires m >= 1
    ensures (v % (2 * m)) / 2 == (v / 2) % m
    ensures (v % (2 * m)) % 2 == v % 2
  {
    var q, r := v / (2 * m), v % (2 * m);
    assert v == 2 * (m * q) + r;
    assert v / 2 == m * q + r / 2 && v % 2 == r % 2;
    ModUnique(v / 2, m, q, r / 2);
  }

  /** Quotient and remainder are unique. */
  lemma ModUnique(v: nat, m: nat, q: nat, r: nat)
    requires v == m * q + r && r < m
    ensures v % m == r
  {
    QuotientAtMost(m, v / m, v % m, q, r);
    QuotientAtMost(m, q, r, v / m, v % m);
  }

  lemma QuotientAtMost(m: nat, q: nat, r: nat, q': nat, r': nat)
    requires m * q + r == m * q' + r' && r < m && r' < m
    ensures q' <= q
  {
    if q' > q {
      assert m * q' == m * q + m * (q' - q);
      assert m * (q' - q) >= m by { MulAtLeast(m, q' - q); }
    }
  }

  lemma MulAtLeast(m: nat, d: nat)
    requires d >= 1
    ensures m * d >= m
  {
    assert m * d == m * (d - 1) + m;
  }

  /** Reducing a number modulo 2^n keeps its low n bits. */
  lemma {:induction false} BitMod(v: nat, n: nat, k: nat)
    requires k < n
    ensures Bit(v % Pow2(n), k) == Bit(v, k)
    decreases k
  {
    ModHalf(v, Pow2(n - 1));
    if k != 0 {
      BitMod(v / 2, n - 1, k - 1);
    }
  }

  /** A left shift by n moves bit k to position k + n, and fills with zeros. */
  lemma {:induction false} BitShl(v: Word, n: nat, k: nat)
    requires k < 64
    ensures Bit(Shl(v, n), k) == (k >= n && Bit(v, k - n))
    decreases n
  {
    if n != 0 {
      BitShl(2 * v % TWO64, n - 1, k);
      if k >= n - 1 {
        Pow64();
        BitMod(2 * v, 64, k - (n - 1));
      }
    }
  }

  /** A right shift by n moves bit k + n to position k. */
  lemma {:induction false} BitShr(v: Word, n: nat, k: nat)
    ensures Bit(Shr(v, n), k) == Bit(v, n + k)
    decreases n
  {
    if n != 0 {
      BitShr(v / 2, n - 1, k);
    }
  }

  /** A word has no bit at or above 64. */
  lemma {:induction false} BitHigh(v: nat, n: nat, k: nat)
    requires v < Pow2(n) && k >= n
    ensures !Bit(v, k)
    decreases n
  {
    if n == 0 {
      BitZero(k);
    } else {
      BitHigh(v / 2, n - 1, k - 1);
    }
  }

  lemma {:induction false} NoBitsIsZero(v: nat)
    requires forall k: nat :: !Bit(v, k)
    ensures v == 0
  {
    if v != 0 {
      assert !Bit(v, 0);
      forall k: nat
        ensures !Bit(v / 2, k)
      {
        assert Bit(v, k + 1) == Bit(v / 2, k);
      }
      NoBitsIsZero(v / 2);
      assert false;
    }
  }

  /** `1 << k` has bit k set and no other. */
  lemma BitMask(k: nat, j: nat)
    requires k < 64
    ensures Bit(Shl(1, k), j) == (j == k)
  {
    if j >= 64 {
      Pow64();
      BitHigh(Shl(1, k), 64, j);
    } else {
      BitShl(1, k, j);
      BitZero(if j > k then j - k - 1 else 0);
    }
  }

  /** The test `v & (1 << k) == 0` asks whether bit k is clear. */
  lemma MaskTest(v: Word, k: nat)
    requires k < 64
    ensures And(v, Shl(1, k)) == 0 <==> !Bit(v, k)
  {
    BitAnd(v, Shl(1, k), k);
    BitMask(k, k);
    BitZero(k);
    if !Bit(v, k) {
      forall j: nat
        ensures !Bit(And(v, Shl(1, k)), j)
      {
        BitAnd(v, Shl(1, k), j);
        BitMask(k, j);
      }
      NoBitsIsZero(And(v, Shl(1, k)));
    }
  }

  /** `v | (1 << k)` sets bit k and leaves the others. */
  lemma MaskSet(v: Word, k: nat, j: nat)
    requires k < 64
    ensures Bit(Or(v, Shl(1, k)), j) == (j == k || Bit(v, j))
  {
    BitOr(v, Shl(1, k), j);
    BitMask(k, j);
  }
}
