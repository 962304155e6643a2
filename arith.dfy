/** Exact integer replacements for the floating-point arithmetic of the
    tiler: powers of two, ceiling division and the ceiling of a base-2
    logarithm, with u32 checked arithmetic. */
module Arith {
  import opened Results

  const U32_MAX: nat := 0xFFFF_FFFF

  /** Rust's `u32`. */
  type U32 = n: nat | n <= U32_MAX

  function Min(a: int, b: int): int {
    if a <= b then a else b
  }

  function Max(a: int, b: int): int {
    if a >= b then a else b
  }

  /** 2^k. */
  function Pow2(k: nat): (r: nat)
    ensures r >= 1
  {
    if k == 0 then 1 else 2 * Pow2(k - 1)
  }

  lemma {:induction false} Pow2Monotone(i: nat, j: nat)
    requires i <= j
    ensures Pow2(i) <= Pow2(j)
  {
    if i < j {
      Pow2Monotone(i, j - 1);
    }
  }

  lemma {:induction false} Pow2Add(a: nat, b: nat)
    ensures Pow2(a) * Pow2(b) == Pow2(a + b)
  {
    if b > 0 {
      Pow2Add(a, b - 1);
      calc {
        Pow2(a) * Pow2(b);
        Pow2(a) * (2 * Pow2(b - 1));
        2 * (Pow2(a) * Pow2(b - 1));
        2 * Pow2(a + b - 1);
      }
    }
  }

  lemma Pow2Of32()
    ensures Pow2(32) == U32_MAX + 1
  {
    assert Pow2(2) == 4;
    assert Pow2(4) == 16 by { Pow2Add(2, 2); }
    assert Pow2(8) == 256 by { Pow2Add(4, 4); }
    assert Pow2(16) == 65536 by { Pow2Add(8, 8); }
    Pow2Add(16, 16);
  }

  /** From a * d < b * d with d positive, a < b. */
  lemma MulCancel(a: int, b: int, d: int)
    requires d > 0
    requires a * d < b * d
    ensures a < b
  {
    assert a >= b ==> a * d >= b * d;
  }

  lemma MulGrows(a: nat, d: nat)
    requires d >= 1
    ensures a <= a * d
  {
    assert a * d == a + a * (d - 1);
  }

  /** The ceiling of n / d, for a positive divisor: the least q with
      n <= q * d. */
  function CeilDiv(n: nat, d: nat): (q: nat)
    requires d > 0
    ensures n <= q * d < n + d
    ensures q <= n
  {
    var q := (n + d - 1) / d;
    QuotientBounds(n, d, q, (n + d - 1) % d);
    q
  }

  /** What the division n + d - 1 == q * d + r says about q. */
  lemma QuotientBounds(n: nat, d: nat, q: nat, r: nat)
    requires d > 0 && r < d
    requires n + d - 1 == q * d + r
    ensures n <= q * d < n + d
    ensures q <= n
  {
    if q > 0 {
      MulGrows(q - 1, d);
      assert (q - 1) * d == q * d - d;
    }
  }

  /** The two bounds determine the ceiling. */
  lemma CeilDivUnique(n: nat, d: nat, q: nat)
    requires d > 0
    requires n <= q * d < n + d
    ensures q == CeilDiv(n, d)
  {
    var c := CeilDiv(n, d);
    MulCancel(c as int - 1, q, d);
    MulCancel(q as int - 1, c, d);
  }

  /** Halving a ceiling quotient again, with ceiling, is the same as one
      ceiling division by the doubled divisor. */
  lemma CeilDivHalved(n: nat, d: nat)
    requires d > 0
    ensures CeilDiv(CeilDiv(n, d), 2) == CeilDiv(n, 2 * d)
  {
    var q := CeilDiv(n, d);
    var c := CeilDiv(q, 2);
    var e := 2 * c;
    assert q <= e <= q + 1;
    MulMonotone(q, e, d);
    MulMonotone(e, q + 1, d);
    assert (q + 1) * d == q * d + d;
    assert c * (2 * d) == e * d;
    CeilDivUnique(n, 2 * d, c);
  }

  lemma MulMonotone(a: nat, b: nat, d: nat)
    requires a <= b
    ensures a * d <= b * d
  {
    assert b * d == a * d + (b - a) * d;
  }

  /** The least k with m <= 2^k: the exact value of ceil(log2(m)) for
      m >= 1, and 0 for m == 0. */
  function CeilLog2(m: nat): (k: nat)
    ensures m <= Pow2(k)
    ensures k == 0 || Pow2(k - 1) < m
    decreases m
  {
    if m <= 1 then 0 else 1 + CeilLog2((m + 1) / 2)
  }

  lemma CeilLog2Unique(m: nat, k: nat)
    requires m <= Pow2(k)
    requires k == 0 || Pow2(k - 1) < m
    ensures CeilLog2(m) == k
  {
    var j := CeilLog2(m);
    if j < k {
      Pow2Monotone(j, k - 1);
    } else if k < j {
      Pow2Monotone(k, j - 1);
    }
  }

  /** No power of two below 2^k reaches m once 2^k does. */
  lemma CeilLog2Least(m: nat, k: nat)
    requires m <= Pow2(k)
    ensures CeilLog2(m) <= k
  {
    var j := CeilLog2(m);
    if j > 0 {
      Pow2Reflects(j - 1, k);
    }
  }

  lemma Pow2Reflects(i: nat, j: nat)
    ensures Pow2(i) < Pow2(j) ==> i < j
  {
    if j <= i {
      Pow2Monotone(j, i);
    }
  }

  /** The number of binary digits of n (0 for n == 0). */
  function BitLength(n: nat): (b: nat)
    ensures n < Pow2(b)
    ensures b == 0 || Pow2(b - 1) <= n
  {
    if n == 0 then 0 else 1 + BitLength(n / 2)
  }

  lemma BitLengthUnique(n: nat, b: nat)
    requires n < Pow2(b)
    requires b == 0 || Pow2(b - 1) <= n
    ensures BitLength(n) == b
  {
    var j := BitLength(n);
    if j < b {
      Pow2Monotone(j, b - 1);
    } else if b < j {
      Pow2Monotone(b, j - 1);
    }
  }

  /** The ceiling of log2(m) is the bit length of m - 1, not of m. */
  lemma CeilLog2IsBitLengthOfPredecessor(m: nat)
    requires m >= 1
    ensures CeilLog2(m) == BitLength(m - 1)
  {
    CeilLog2Unique(m, BitLength(m - 1));
  }

  /** u32 `a - b` in a debug build, where an underflow panics. */
  function CheckedSub(a: U32, b: U32): (r: Result<U32>)
    ensures r.Ok? <==> b <= a
    ensures r.Ok? ==> r.value + b == a
    ensures r.Err? ==> r.error == ArithmeticOverflow
  {
    if b <= a then Ok(a - b) else Err(ArithmeticOverflow)
  }

  /** u32 `a + b` in a debug build, where an overflow panics. */
  function CheckedAdd(a: U32, b: U32): (r: Result<U32>)
    ensures r.Ok? <==> a + b <= U32_MAX
    ensures r.Ok? ==> r.value - b == a
    ensures r.Err? ==> r.error == ArithmeticOverflow
  {
    if a + b <= U32_MAX then Ok(a + b) else Err(ArithmeticOverflow)
  }

  /** u32 `a * b` in a debug build, where an overflow panics. */
  function CheckedMul(a: U32, b: U32): (r: Result<U32>)
    ensures r.Ok? <==> a * b <= U32_MAX
    ensures r.Ok? ==> r.value == a * b
    ensures r.Err? ==> r.error == ArithmeticOverflow
  {
    if a * b <= U32_MAX then Ok(a * b) else Err(ArithmeticOverflow)
  }
}
