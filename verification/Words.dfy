/**
 * The 32-bit integer operators of ECMAScript and the bits they move. A word stands for the result of
 * ToUint32, so `<<` wraps and `>>>` shifts in zeros; `|` and `&` act bit by bit.
 */
module Words {
  const WORD := 0x1_0000_0000

  type word = x: nat | x < WORD
  type byte = x: nat | x < 256

  function Pow2(k: nat): (p: nat)
    ensures p >= 1
  {
    if k == 0 then 1 else 2 * Pow2(k - 1)
  }

  /** Doubling k times; what leaves the word is lost. */
  function Shl(x: word, k: nat): word
    decreases k
  {
    if k == 0 then x else Shl((2 * x) % WORD, k - 1)
  }

  function Ushr(x: word, k: nat): word {
    Halve(x, k)
  }

  /** x / 2^k, rounded down. */
  function Halve(x: nat, k: nat): (y: nat)
    ensures y <= x
  {
    if k == 0 then x else Halve(x / 2, k - 1)
  }

  function BitOr(x: nat, y: nat): nat {
    if x == 0 && y == 0 then 0
    else 2 * BitOr(x / 2, y / 2) + (if x % 2 == 1 || y % 2 == 1 then 1 else 0)
  }

  function BitAnd(x: nat, y: nat): (z: nat)
    ensures z <= y
  {
    if x == 0 || y == 0 then 0
    else 2 * BitAnd(x / 2, y / 2) + (if x % 2 == 1 && y % 2 == 1 then 1 else 0)
  }

  // ---- words as bit strings, most significant bit first

  type Bits = seq<bool>

  function LowBits(x: nat, n: nat): (b: Bits)
    ensures |b| == n
  {
    if n == 0 then [] else LowBits(x / 2, n - 1) + [x % 2 == 1]
  }

  function FromBits(b: Bits): nat {
    if b == [] then 0 else 2 * FromBits(b[..|b| - 1]) + (if b[|b| - 1] then 1 else 0)
  }

  function Falses(n: nat): (b: Bits)
    ensures |b| == n
  {
    seq(n, _ => false)
  }

  lemma {:induction false} LowBitsOfZero(n: nat)
    ensures LowBits(0, n) == Falses(n)
  {
    if n > 0 { LowBitsOfZero(n - 1); }
  }

  lemma {:induction false} LowBitsFromBits(b: Bits)
    ensures LowBits(FromBits(b), |b|) == b
    ensures FromBits(b) < Pow2(|b|)
  {
    if b != [] {
      LowBitsFromBits(b[..|b| - 1]);
    }
  }

  lemma {:induction false} FromBitsLowBits(x: nat, n: nat)
    requires x < Pow2(n)
    ensures FromBits(LowBits(x, n)) == x
  {
    if n > 0 {
      FromBitsLowBits(x / 2, n - 1);
      assert LowBits(x, n)[..n - 1] == LowBits(x / 2, n - 1);
    }
  }

  /** A number below 2^k has only zeros above its low k bits. */
  lemma {:induction false} LowBitsSmall(x: nat, n: nat, k: nat)
    requires x < Pow2(k)
    ensures LowBits(x, n + k) == Falses(n) + LowBits(x, k)
  {
    if k == 0 {
      LowBitsOfZero(n);
    } else {
      LowBitsSmall(x / 2, n, k - 1);
    }
  }

  lemma {:induction false} LowBitsTail(x: nat, n: nat, k: nat)
    ensures LowBits(x, n + k)[n..] == LowBits(x, k)
  {
    if k > 0 {
      LowBitsTail(x / 2, n, k - 1);
      assert LowBits(x, n + k)[n..] == LowBits(x / 2, n + k - 1)[n..] + [x % 2 == 1];
    }
  }

  lemma {:induction false} LowBitsUshr(x: word, n: nat, k: nat)
    ensures LowBits(Ushr(x, k), n) == LowBits(x, n + k)[..n]
  {
    if k > 0 {
      LowBitsUshr(x / 2, n, k - 1);
      assert LowBits(x, n + k)[..n] == LowBits(x / 2, n + k - 1)[..n];
    }
  }

  /** Taking away a power of two above the low n bits leaves them alone. */
  lemma {:induction false} LowBitsMinus(x: nat, n: nat, k: nat)
    requires n <= k && Pow2(k) <= x
    ensures LowBits(x - Pow2(k), n) == LowBits(x, n)
  {
    if n > 0 {
      assert Pow2(k) == 2 * Pow2(k - 1);
      LowBitsMinus(x / 2, n - 1, k - 1);
    }
  }

  lemma WordIsPow2()
    ensures Pow2(32) == WORD && Pow2(31) == WORD / 2
  {
    assert Pow2(8) == 256;
    assert Pow2(16) == 0x1_0000;
    assert Pow2(24) == 0x100_0000;
  }

  lemma LowBitsDouble(x: word, n: nat)
    requires n <= 31
    ensures LowBits((2 * x) % WORD, n + 1) == LowBits(x, n) + [false]
  {
    hide LowBits, Pow2;
    WordIsPow2();
    if 2 * x >= WORD {
      LowBitsMinus(x, n, 31);
      assert (2 * x) % WORD == 2 * (x - Pow2(31));
      LowBitsEven(x - Pow2(31), n);
    } else {
      LowBitsEven(x, n);
    }
  }

  lemma LowBitsEven(x: nat, n: nat)
    ensures LowBits(2 * x, n + 1) == LowBits(x, n) + [false]
  {
    assert (2 * x) / 2 == x && (2 * x) % 2 == 0;
  }

  /** As long as they stay inside the word, shifted bits are the old bits followed by zeros. */
  lemma {:induction false} LowBitsShl(x: word, n: nat, k: nat)
    requires n + k <= 32
    ensures LowBits(Shl(x, k), n + k) == LowBits(x, n) + Falses(k)
    decreases k
  {
    if k > 0 {
      var y := (2 * x) % WORD;
      LowBitsDouble(x, n);
      LowBitsShl(y, n + 1, k - 1);
      assert [false] + Falses(k - 1) == Falses(k);
      assert LowBits(x, n) + ([false] + Falses(k - 1)) == (LowBits(x, n) + [false]) + Falses(k - 1);
    }
  }

  lemma {:induction false} LowBitsOr(x: nat, y: nat, n: nat)
    ensures forall i :: 0 <= i < n ==> LowBits(BitOr(x, y), n)[i] == (LowBits(x, n)[i] || LowBits(y, n)[i])
  {
    if n > 0 {
      LowBitsOr(x / 2, y / 2, n - 1);
      assert BitOr(x, y) / 2 == BitOr(x / 2, y / 2);
    }
  }

  lemma {:induction false} LowBitsAnd(x: nat, n: nat)
    ensures LowBits(BitAnd(x, Pow2(n) - 1), n) == LowBits(x, n)
    ensures BitAnd(x, Pow2(n) - 1) < Pow2(n)
  {
    if n > 0 {
      LowBitsAnd(x / 2, n - 1);
      if x == 0 {
        LowBitsOfZero(n);
      } else {
        assert (Pow2(n) - 1) / 2 == Pow2(n - 1) - 1 && (Pow2(n) - 1) % 2 == 1;
      }
    }
  }

  /** Shift left by k, then fill the k zeros with a number below 2^k: the bits are concatenated. */
  lemma ShiftIn(x: word, n: nat, k: nat, y: nat)
    requires n + k <= 32 && y < Pow2(k)
    ensures LowBits(BitOr(Shl(x, k), y), n + k) == LowBits(x, n) + LowBits(y, k)
  {
    LowBitsShl(x, n, k);
    LowBitsSmall(y, n, k);
    LowBitsOr(Shl(x, k), y, n + k);
  }

  /** Shift right by k and mask to m bits: the m bits above the low k. */
  lemma MaskOut(x: word, k: nat, m: nat)
    ensures BitAnd(Ushr(x, k), Pow2(m) - 1) == FromBits(LowBits(x, m + k)[..m])
  {
    LowBitsAnd(Ushr(x, k), m);
    LowBitsUshr(x, m, k);
    FromBitsLowBits(BitAnd(Ushr(x, k), Pow2(m) - 1), m);
  }

  lemma {:induction false} OrBelow(x: nat, y: nat, n: nat)
    requires x < Pow2(n) && y < Pow2(n)
    ensures BitOr(x, y) < Pow2(n)
  {
    if n > 0 { OrBelow(x / 2, y / 2, n - 1); }
  }
}
