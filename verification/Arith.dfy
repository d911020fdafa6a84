/** Facts about remainders, powers of two and bit masks that the models share. */
module Arith {

  lemma MulMonotone(a: int, b: int, n: nat)
    requires a <= b
    ensures a * n <= b * n
  {
  }

  /** Quotient and remainder are determined by the equation. */
  lemma DivModUnique(x: int, q: int, r: int, n: nat)
    requires 0 <= r < n && x == q * n + r
    ensures x / n == q && x % n == r
  {
    var q', r' := x / n, x % n;
    assert x == q' * n + r' && 0 <= r' < n;
    assert (q + 1) * n == q * n + n && (q' + 1) * n == q' * n + n;
    if q < q' {
      MulMonotone(q + 1, q', n);
    } else if q' < q {
      MulMonotone(q' + 1, q, n);
    }
  }

  lemma ModPlusN(x: int, n: nat)
    requires n > 0
    ensures (x + n) % n == x % n && (x - n) % n == x % n
  {
    var q, r := x / n, x % n;
    assert (q + 1) * n == q * n + n && (q - 1) * n == q * n - n;
    DivModUnique(x + n, q + 1, r, n);
    DivModUnique(x - n, q - 1, r, n);
  }

  /** Numbers less than `n` apart are equal if they agree modulo `n`. */
  lemma ModInjective(j: int, k: int, n: nat)
    requires n > 0 && j < k < j + n
    ensures j % n != k % n
  {
    var q, r := j / n, j % n;
    if r + (k - j) < n {
      DivModUnique(k, q, r + (k - j), n);
    } else {
      assert (q + 1) * n == q * n + n;
      DivModUnique(k, q + 1, r + (k - j) - n, n);
    }
  }

  function Pow2(k: nat): (r: nat)
    ensures r >= 1 && r > k
  {
    if k == 0 then 1 else 2 * Pow2(k - 1)
  }

  lemma {:induction false} Pow2Monotone(j: nat, k: nat)
    requires j <= k
    ensures Pow2(j) <= Pow2(k)
  {
    if j < k {
      Pow2Monotone(j, k - 1);
    }
  }

  /** The exponent of the least power of two that is at least `n`, searched from `k` up. */
  function CeilLog2(n: nat, k: nat := 0): (r: nat)
    ensures Pow2(r) >= n && r >= k && (r > k ==> Pow2(r - 1) < n)
    decreases n - k
  {
    if Pow2(k) >= n then k else CeilLog2(n, k + 1)
  }

  /** Bitwise conjunction of naturals, digit by digit. */
  function BitAnd(x: nat, y: nat): nat {
    if x == 0 || y == 0 then 0
    else 2 * BitAnd(x / 2, y / 2) + if x % 2 == 1 && y % 2 == 1 then 1 else 0
  }

  lemma HalfMod(x: nat, n: nat)
    requires n > 0
    ensures x % (2 * n) == 2 * (x / 2 % n) + x % 2
  {
    var h := x / 2;
    var q, r := h / n, h % n;
    assert h == q * n + r;
    assert x == q * (2 * n) + (2 * r + x % 2);
    DivModUnique(x, q, 2 * r + x % 2, 2 * n);
  }

  /** Masking with a power of two less one is the remainder. */
  lemma {:induction false} MaskIsMod(x: nat, k: nat)
    ensures BitAnd(x, Pow2(k) - 1) == x % Pow2(k)
  {
    if k > 0 {
      var n := Pow2(k - 1);
      HalfMod(x, n);
      MaskIsMod(x / 2, k - 1);
      assert (2 * n - 1) / 2 == n - 1 && (2 * n - 1) % 2 == 1;
    }
  }
}
