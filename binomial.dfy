/** Exact binomial coefficients (`comb` in www/index.js). */
module Binomial {

  /** The binomial coefficient by Pascal's rule, for any integers:
      zero outside 0 <= k <= n, one on the two edges. */
  function C(n: int, k: int): nat
    decreases n
  {
    if k < 0 || k > n then 0
    else if k == 0 || k == n then 1
    else C(n - 1, k - 1) + C(n - 1, k)
  }

  /** C(n, k) is positive exactly inside the triangle 0 <= k <= n. */
  lemma {:induction false} CPositive(n: int, k: int)
    ensures C(n, k) > 0 <==> 0 <= k <= n
    decreases n
  {
    if 0 < k < n {
      CPositive(n - 1, k);
    }
  }

  function Fact(n: nat): nat
  {
    if n == 0 then 1 else n * Fact(n - 1)
  }

  /** The absorption identity k * C(n, k) == n * C(n - 1, k - 1), for all
      integers n and k. It makes every division in `Comb` exact, and it turns
      the free-tile numerator into an expected mine count. */
  lemma {:induction false} Absorption(n: int, k: int)
    ensures k * C(n, k) == n * C(n - 1, k - 1)
    decreases n
  {
    if k < 0 || k > n {
      // both sides vanish: k - 1 lies outside [0, n - 1] as well
    } else if k == 0 {
    } else if k == n {
      assert C(n - 1, k - 1) == 1;
    } else {
      // 0 < k < n, so both C(n, k) and C(n - 1, k - 1) follow Pascal's rule
      var x, y := C(n - 1, k - 1), C(n - 1, k);
      var p, q := C(n - 2, k - 2), C(n - 2, k - 1);
      assert C(n, k) == x + y;
      assert x == p + q by {
        if k == 1 {
          assert p == 0 && x == 1 && q == 1;
        } else if k - 1 == n - 1 {
          assert false;
        }
      }
      Absorption(n - 1, k - 1);
      Absorption(n - 1, k);
      AbsorptionStep(n, k, x, y, p, q);
    }
  }

  /** The arithmetic of one inductive step of `Absorption`. */
  lemma AbsorptionStep(n: int, k: int, x: int, y: int, p: int, q: int)
    requires x == p + q
    requires (k - 1) * x == (n - 1) * p
    requires k * y == (n - 1) * q
    ensures k * (x + y) == n * x
  {
    calc {
      k * (x + y);
      { MulAdd(k, x, y); }
      k * x + k * y;
      (k - 1) * x + x + k * y;
      (n - 1) * p + x + (n - 1) * q;
      { MulAdd(n - 1, p, q); }
      (n - 1) * x + x;
      n * x;
    }
  }

  lemma MulAdd(a: int, b: int, c: int)
    ensures a * (b + c) == a * b + a * c
  {
  }

  /** The closed form: C(n, k) * k! * (n - k)! == n!. */
  lemma {:induction false} FactorialForm(n: nat, k: nat)
    requires k <= n
    ensures C(n, k) * Fact(k) * Fact(n - k) == Fact(n)
    decreases n
  {
    if k == 0 || k == n {
    } else {
      FactorialForm(n - 1, k - 1);
      FactorialForm(n - 1, k);
      FactorialStep(n, k, C(n - 1, k - 1), C(n - 1, k), Fact(k - 1), Fact(n - 1 - k), Fact(n - 1));
    }
  }

  /** One step of `FactorialForm`, with the smaller factorials as plain numbers. */
  lemma FactorialStep(n: nat, k: nat, x: nat, y: nat, a: nat, b: nat, f: nat)
    requires 0 < k < n
    requires x == C(n - 1, k - 1) && y == C(n - 1, k)
    requires a == Fact(k - 1) && b == Fact(n - 1 - k) && f == Fact(n - 1)
    requires x * a * Fact(n - k) == f
    requires y * Fact(k) * b == f
    ensures C(n, k) * Fact(k) * Fact(n - k) == Fact(n)
  {
    assert Fact(k) == k * a;
    assert Fact(n - k) == (n - k) * b;
    assert Fact(n) == n * f;
    assert C(n, k) == x + y;
    calc {
      C(n, k) * Fact(k) * Fact(n - k);
      (x + y) * (k * a) * ((n - k) * b);
      { Regroup(x, y, k, a, n - k, b); }
      k * (x * a * ((n - k) * b)) + (n - k) * (y * (k * a) * b);
      k * f + (n - k) * f;
      { MulAdd(f, k, n - k); }
      n * f;
    }
  }

  lemma Regroup(x: int, y: int, k: int, a: int, j: int, b: int)
    ensures (x + y) * (k * a) * (j * b) == k * (x * a * (j * b)) + j * (y * (k * a) * b)
  {
    calc {
      (x + y) * (k * a) * (j * b);
      x * (k * a) * (j * b) + y * (k * a) * (j * b);
      k * (x * a * (j * b)) + j * (y * (k * a) * b);
    }
  }

  lemma DivExact(c: nat, i: int)
    requires i > 0
    ensures (i * c) / i == c
  {
    var q, m := (i * c) / i, (i * c) % i;
    assert i * c == i * q + m && 0 <= m < i;
    assert i * (c - q) == m by { MulAdd(i, c - q, q); }
    if c - q >= 1 {
      MulMono(i, c - q);
    } else if c - q <= -1 {
      MulMono(i, q - c);
    }
  }

  lemma MulMono(i: int, d: int)
    requires i > 0 && d >= 1
    ensures i * d >= i
  {
  }

  /** One round of the running product in `Comb`: multiplying C(m - 1, i - 1)
      by m gives i * C(m, i), so the division by i is exact. */
  lemma CombStep(m: int, i: int, prev: nat)
    requires i > 0
    requires prev == C(m - 1, i - 1)
    ensures prev * m >= 0
    ensures (prev * m) / i == C(m, i)
  {
    Absorption(m, i);
    assert prev * m == i * C(m, i);
    DivExact(C(m, i), i);
  }

  /** `comb(n, r)`: zero when r < 0 or r > n, one when r == 0 or r == n, and
      otherwise a running product that multiplies by n - (r - i) and then
      divides by i for i = 1 .. r. BigInt division truncates, which agrees with
      Dafny's division because every operand here is non-negative. */
  method Comb(n: int, r: int) returns (res: nat)
    ensures res == C(n, r)
    ensures r < 0 || r > n ==> res == 0
    ensures 0 <= r <= n ==> res * Fact(r) * Fact(n - r) == Fact(n)
  {
    if r < 0 || r > n {
      return 0;
    }
    if r == 0 || r == n {
      FactorialForm(n, r);
      return 1;
    }
    res := 1;
    var i := 1;
    while i <= r
      invariant 1 <= i <= r + 1
      invariant res == C(n - r + i - 1, i - 1)
    {
      CombStep(n - r + i, i, res);
      res := res * (n - (r - i));
      res := res / i;
      i := i + 1;
    }
    FactorialForm(n, r);
  }
}
