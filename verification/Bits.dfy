// Unsigned machine arithmetic on naturals: powers of two, bitwise operations, and masks of leading ones.
module Bits {

  function Pow2(n: nat): (p: nat)
    ensures p > 0
  {
    if n == 0 then 1 else 2 * Pow2(n - 1)
  }

  function And(a: nat, b: nat): nat {
    if a == 0 || b == 0 then 0 else 2 * And(a / 2, b / 2) + (a % 2) * (b % 2)
  }

  function Or(a: nat, b: nat): nat {
    if a == 0 && b == 0 then 0 else 2 * Or(a / 2, b / 2) + if a % 2 == 1 || b % 2 == 1 then 1 else 0
  }

  lemma {:induction false} Pow2Monotone(m: nat, n: nat)
    requires m <= n
    ensures Pow2(m) <= Pow2(n)
  {
    if m < n {
      Pow2Monotone(m, n - 1);
    }
  }

  lemma {:induction false} Pow2Sum(m: nat, n: nat)
    ensures Pow2(m + n) == Pow2(m) * Pow2(n)
  {
    if m > 0 {
      Pow2Sum(m - 1, n);
      assert Pow2(m + n) == 2 * (Pow2(m - 1) * Pow2(n));
    }
  }

  lemma HalfMod(n: nat, half: nat)
    requires half > 0
    ensures n % (2 * half) == 2 * ((n / 2) % half) + n % 2
    ensures n / 2 / half == n / (2 * half)
  {
    var q, r := n / 2 / half, (n / 2) % half;
    assert n / 2 == q * half + r;
    assert n == q * (2 * half) + (2 * r + n % 2);
    DivModUnique(n, 2 * half, q, 2 * r + n % 2);
  }

  lemma DivModUnique(n: nat, d: nat, q: nat, r: nat)
    requires d > 0 && n == q * d + r && r < d
    ensures n / d == q && n % d == r
  {
    var k := n / d - q;
    assert n == (n / d) * d + n % d;
    assert k * d == r - n % d;
    MultipleAtLeast(k, d);
  }

  lemma MultipleAtLeast(k: int, d: nat)
    ensures k >= 1 ==> k * d >= d
    ensures k <= -1 ==> k * d + d <= 0
  {
    assert k * d == (k - 1) * d + d && k * d == (k + 1) * d - d;
    if k >= 1 {
      assert (k - 1) * d >= 0;
    }
    if k <= -1 {
      assert (k + 1) * d <= 0;
    }
  }

  lemma Aligned(a: nat, size: nat)
    requires size > 0
    ensures (a - a % size) % size == 0 && a - a % size <= a < a - a % size + size
  {
    assert a == a / size * size + a % size;
    DivModUnique(a - a % size, size, a / size, 0);
  }

  /** An aligned block that starts below a multiple of its size ends there or before. */
  lemma AlignedEnd(a: nat, size: nat, blocks: nat)
    requires size > 0 && a < blocks * size
    ensures a - a % size + size <= blocks * size
  {
    var q := a / size;
    assert a == q * size + a % size;
    MultipleAtLeast(q - blocks, size);
    assert (q - blocks) * size == q * size - blocks * size;
    MultipleAtLeast(blocks - q - 1, size);
    assert (blocks - q - 1) * size == blocks * size - q * size - size;
  }

  /** All ones up to the width of n change nothing. */
  lemma {:induction false} AndOnes(n: nat, w: nat)
    requires n < Pow2(w)
    ensures And(n, Pow2(w) - 1) == n
  {
    if n > 0 {
      AndOnes(n / 2, w - 1);
      assert (Pow2(w) - 1) / 2 == Pow2(w - 1) - 1 && (Pow2(w) - 1) % 2 == 1;
    }
  }

  /** A mask of w - k leading ones clears the low k bits. */
  lemma {:induction false} AndMask(n: nat, w: nat, k: nat)
    requires n < Pow2(w) && k <= w
    ensures Pow2(k) <= Pow2(w)
    ensures And(n, Pow2(w) - Pow2(k)) == n - n % Pow2(k)
  {
    hide *;
    Pow2Monotone(k, w);
    if k == 0 {
      AndOnes(n, w);
      Pow2Zero();
    } else {
      Pow2Step(w);
      Pow2Step(k);
      AndMask(n / 2, w - 1, k - 1);
      MaskStep(n, Pow2(w - 1), Pow2(k - 1));
    }
  }

  lemma Pow2Step(n: nat)
    requires n > 0
    ensures Pow2(n) == 2 * Pow2(n - 1)
  {
  }

  lemma Pow2Zero()
    ensures Pow2(0) == 1
  {
  }

  lemma MaskStep(n: nat, high: nat, low: nat)
    requires 0 < low <= high && And(n / 2, high - low) == n / 2 - (n / 2) % low
    ensures And(n, 2 * high - 2 * low) == n - n % (2 * low)
  {
    ShiftedMask(n, high, low);
    hide And;
    HalfMod(n, low);
  }

  lemma ShiftedMask(n: nat, high: nat, low: nat)
    requires 0 < low <= high
    ensures And(n, 2 * high - 2 * low) == 2 * And(n / 2, high - low)
  {
    assert (2 * high - 2 * low) / 2 == high - low && (2 * high - 2 * low) % 2 == 0;
    if n == 0 || high == low {
      assert And(n / 2, high - low) == 0;
    }
  }

  lemma {:induction false} OrZero(n: nat)
    ensures Or(n, 0) == n
  {
    if n > 0 {
      OrZero(n / 2);
    }
  }

  /** Filling the low k bits of a number that has none of them. */
  lemma {:induction false} OrLow(n: nat, k: nat)
    requires n % Pow2(k) == 0
    ensures Or(n, Pow2(k) - 1) == n + Pow2(k) - 1
  {
    if k == 0 {
      OrZero(n);
    } else {
      assert Pow2(k) == 2 * Pow2(k - 1);
      hide Pow2, Or;
      HalfMod(n, Pow2(k - 1));
      OrLow(n / 2, k - 1);
      ShiftedOnes(n, Pow2(k - 1));
    }
  }

  lemma ShiftedOnes(n: nat, half: nat)
    requires half > 0 && n % 2 == 0
    ensures Or(n, 2 * half - 1) == 2 * Or(n / 2, half - 1) + 1
  {
    assert (2 * half - 1) / 2 == half - 1 && (2 * half - 1) % 2 == 1;
  }
}
