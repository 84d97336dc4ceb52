/** Finite sums over integer ranges, the vocabulary in which the convolution
    coefficients and the probability numerators and denominators are stated. */
module Sums {

  /** Sum of f(i) for lo <= i < hi (zero when the range is empty). */
  function Sum(lo: int, hi: int, f: int -> nat): nat
    decreases hi - lo
  {
    if hi <= lo then 0 else f(lo) + Sum(lo + 1, hi, f)
  }

  /** Peeling the last term off a non-empty range. */
  lemma {:induction false} SumLast(lo: int, hi: int, f: int -> nat)
    requires lo < hi
    ensures Sum(lo, hi, f) == Sum(lo, hi - 1, f) + f(hi - 1)
    decreases hi - lo
  {
    if lo < hi - 1 {
      SumLast(lo + 1, hi, f);
    }
  }

  /** Splitting a range in two. */
  lemma {:induction false} SumSplit(lo: int, mid: int, hi: int, f: int -> nat)
    requires lo <= mid <= hi
    ensures Sum(lo, hi, f) == Sum(lo, mid, f) + Sum(mid, hi, f)
    decreases mid - lo
  {
    if lo < mid {
      SumSplit(lo + 1, mid, hi, f);
    }
  }

  /** Sums of functions that agree on the range are equal. */
  lemma {:induction false} SumExt(lo: int, hi: int, f: int -> nat, g: int -> nat)
    requires forall i :: lo <= i < hi ==> f(i) == g(i)
    ensures Sum(lo, hi, f) == Sum(lo, hi, g)
    decreases hi - lo
  {
    if lo < hi {
      SumExt(lo + 1, hi, f, g);
    }
  }

  /** A sum of zeros is zero. */
  lemma {:induction false} SumZero(lo: int, hi: int, f: int -> nat)
    requires forall i :: lo <= i < hi ==> f(i) == 0
    ensures Sum(lo, hi, f) == 0
    decreases hi - lo
  {
    if lo < hi {
      SumZero(lo + 1, hi, f);
    }
  }

  /** A sum is positive exactly when some term is. */
  lemma {:induction false} SumPositive(lo: int, hi: int, f: int -> nat)
    ensures Sum(lo, hi, f) > 0 <==> exists i :: lo <= i < hi && f(i) > 0
    decreases hi - lo
  {
    if lo < hi {
      SumPositive(lo + 1, hi, f);
      if f(lo) > 0 {
        assert lo <= lo < hi && f(lo) > 0;
      }
    }
  }

  /** A sum whose terms vanish everywhere except at p is the term at p. */
  lemma {:induction false} SumPoint(lo: int, hi: int, p: int, f: int -> nat)
    requires forall i :: lo <= i < hi && i != p ==> f(i) == 0
    ensures Sum(lo, hi, f) == if lo <= p < hi then f(p) else 0
    decreases hi - lo
  {
    if lo < hi {
      SumPoint(lo + 1, hi, p, f);
    }
  }

  /** Termwise addition. */
  lemma {:induction false} SumAdd(lo: int, hi: int, f: int -> nat, g: int -> nat, h: int -> nat)
    requires forall i :: lo <= i < hi ==> h(i) == f(i) + g(i)
    ensures Sum(lo, hi, h) == Sum(lo, hi, f) + Sum(lo, hi, g)
    decreases hi - lo
  {
    if lo < hi {
      SumAdd(lo + 1, hi, f, g, h);
    }
  }

  /** Termwise comparison carries over to the sums. */
  lemma {:induction false} SumMono(lo: int, hi: int, f: int -> nat, g: int -> nat)
    requires forall i :: lo <= i < hi ==> f(i) <= g(i)
    ensures Sum(lo, hi, f) <= Sum(lo, hi, g)
    decreases hi - lo
  {
    if lo < hi {
      SumMono(lo + 1, hi, f, g);
    }
  }

  /** Changing one term inside the range changes the sum by the same amount. */
  lemma {:induction false} SumBump(lo: int, hi: int, p: int, f: int -> nat, g: int -> nat)
    requires lo <= p < hi
    requires forall i :: lo <= i < hi && i != p ==> f(i) == g(i)
    ensures Sum(lo, hi, g) + f(p) == Sum(lo, hi, f) + g(p)
    decreases hi - lo
  {
    if lo < p {
      SumBump(lo + 1, hi, p, f, g);
    } else {
      SumExt(lo + 1, hi, f, g);
    }
  }

  /** A constant factor can be taken out of a sum. */
  lemma {:induction false} SumScale(lo: int, hi: int, c: nat, f: int -> nat, g: int -> nat)
    requires forall i :: lo <= i < hi ==> g(i) == c * f(i)
    ensures Sum(lo, hi, g) == c * Sum(lo, hi, f)
    decreases hi - lo
  {
    if lo < hi {
      SumScale(lo + 1, hi, c, f, g);
      calc {
        Sum(lo, hi, g);
        g(lo) + Sum(lo + 1, hi, g);
        c * f(lo) + c * Sum(lo + 1, hi, f);
        { assert c * f(lo) + c * Sum(lo + 1, hi, f) == c * (f(lo) + Sum(lo + 1, hi, f)); }
        c * Sum(lo, hi, f);
      }
    }
  }

  /** Shifting the index: the sum of f over [lo, hi) is the sum of g over
      [lo2, hi2) == [lo - d, hi - d) when g(i) == f(i + d). */
  lemma {:induction false} SumShift(lo: int, hi: int, d: int, lo2: int, hi2: int, f: int -> nat, g: int -> nat)
    requires lo2 == lo - d && hi2 == hi - d
    requires forall i :: lo2 <= i < hi2 ==> g(i) == f(i + d)
    ensures Sum(lo, hi, f) == Sum(lo2, hi2, g)
    decreases hi - lo
  {
    if lo < hi {
      SumShift(lo + 1, hi, d, lo2 + 1, hi2, f, g);
    }
  }

  /** Reversing the order of summation over [0, n). */
  lemma {:induction false} SumReverse(n: nat, f: int -> nat, g: int -> nat)
    requires forall i :: 0 <= i < n ==> g(i) == f(n - 1 - i)
    ensures Sum(0, n, f) == Sum(0, n, g)
  {
    if n > 0 {
      var g' := (i: int) => f(n - 2 - i);
      SumReverse(n - 1, f, g');
      SumLast(0, n, f);
      SumShift(1, n, 1, 0, n - 1, g, g');
    }
  }

  /** Exchanging the order of a double sum over the triangle 0 <= i <= j < n:
      summing row by row equals summing column by column. */
  lemma {:induction false} SumTriangle(n: nat, f: (int, int) -> nat,
                                       rows: int -> nat, cols: int -> nat)
    requires forall j :: 0 <= j < n ==> rows(j) == Sum(0, j + 1, i => f(i, j))
    requires forall i :: 0 <= i < n ==> cols(i) == Sum(i, n, j => f(i, j))
    ensures Sum(0, n, rows) == Sum(0, n, cols)
  {
    if n > 0 {
      // the columns of the smaller triangle
      var cols' := (i: int) => Sum(i, n - 1, j => f(i, j));
      SumTriangle(n - 1, f, rows, cols');
      SumLast(0, n, rows);
      // each column of the bigger triangle is the smaller column plus its entry in the last row
      var last := (i: int) => f(i, n - 1);
      var grown := (i: int) => cols'(i) + last(i);
      forall i | 0 <= i < n
        ensures cols(i) == grown(i)
      {
        SumLast(i, n, j => f(i, j));
        if i == n - 1 {
          assert Sum(i, n - 1, j => f(i, j)) == 0;
        }
      }
      SumExt(0, n, cols, grown);
      SumAdd(0, n, cols', last, grown);
      SumLast(0, n, cols');
      assert cols'(n - 1) == 0;
      assert rows(n - 1) == Sum(0, n, last) by {
        SumExt(0, n, i => f(i, n - 1), last);
      }
    }
  }
}
