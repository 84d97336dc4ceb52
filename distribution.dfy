/** Mine-count distributions (`MineFrequencyGraph` in www/index.js): sparse
    polynomials mapping a mine count to the number of solutions that use it. */
module Distribution {
  import opened Sums
  import opened Wrappers

  /** mine count |-> solution count; an absent key means coefficient 0. */
  type Dist = map<nat, nat>

  /** The coefficient at k, reading absent (and negative) keys as 0. */
  function Coef(d: Dist, k: int): nat
  {
    if k >= 0 && k in d then d[k] else 0
  }

  /** One term a(i) * b(k - i) of the convolution coefficient at k. */
  function Term(a: Dist, b: Dist, k: int, i: int): nat
  {
    Coef(a, i) * Coef(b, k - i)
  }

  /** The convolution coefficient: the sum of a(i) * b(k - i) over 0 <= i <= k. */
  function ConvAt(a: Dist, b: Dist, k: int): nat
  {
    Sum(0, k + 1, i => Term(a, b, k, i))
  }

  /** Every sum of a key of a and a key of b. */
  function PairSums(s: set<nat>, t: set<nat>): set<nat>
  {
    set m1, m2 | m1 in s && m2 in t :: m1 + m2
  }

  /** The product polynomial. Its keys are exactly the pairwise sums of keys
      (a key stays even when its accumulated count is 0, as in the source). */
  function Conv(a: Dist, b: Dist): Dist
  {
    map k | k in PairSums(a.Keys, b.Keys) :: ConvAt(a, b, k)
  }

  /** The neutral distribution {0: 1}. */
  function Unit(): Dist
  {
    map[0 := 1]
  }

  /** Termwise sum of two distributions, over the union of their keys. */
  function Add(p: Dist, q: Dist): Dist
  {
    map k | k in p.Keys + q.Keys :: Coef(p, k) + Coef(q, k)
  }

  /** The part of a whose keys lie in s. */
  function Restrict(a: Dist, s: set<nat>): Dist
  {
    map k | k in a && k in s :: a[k]
  }

  /** Coefficient-wise order. */
  ghost predicate Below(p: Dist, q: Dist)
  {
    forall k :: Coef(p, k) <= Coef(q, k)
  }

  /** Convolution is monotone: a distribution below another stays below it
      after both are multiplied by the same distribution. */
  lemma ConvMonotone(p: Dist, q: Dist, c: Dist)
    requires Below(p, q)
    ensures Below(Conv(p, c), Conv(q, c))
  {
    forall k
      ensures Coef(Conv(p, c), k) <= Coef(Conv(q, c), k)
    {
      CoefConv(p, c, k);
      CoefConv(q, c, k);
      forall i | 0 <= i < k + 1
        ensures Term(p, c, k, i) <= Term(q, c, k, i)
      {
        MulLe(Coef(p, i), Coef(q, i), Coef(c, k - i));
      }
      SumMono(0, k + 1, i => Term(p, c, k, i), i => Term(q, c, k, i));
    }
  }

  lemma MulLe(x: nat, y: nat, z: nat)
    requires x <= y
    ensures x * z <= y * z
  {
  }

  /** Two distributions with the same keys and the same coefficients are equal. */
  lemma DistEq(p: Dist, q: Dist)
    requires p.Keys == q.Keys
    requires forall k :: Coef(p, k) == Coef(q, k)
    ensures p == q
  {
    forall k | k in p
      ensures p[k] == q[k]
    {
      assert Coef(p, k) == Coef(q, k);
    }
  }

  /** A pairwise sum of elements is a pairwise sum. */
  lemma InPairSums(s: set<nat>, t: set<nat>, m1: nat, m2: nat)
    requires m1 in s && m2 in t
    ensures m1 + m2 in PairSums(s, t)
  {
  }

  /** The keys of the product are exactly the pairwise sums of keys. */
  lemma ConvKeys(a: Dist, b: Dist)
    ensures Conv(a, b).Keys == PairSums(a.Keys, b.Keys)
  {
  }

  /** Reading the product at any k gives the convolution coefficient, also at
      the k that are not pairwise sums (where it is 0). */
  lemma CoefConv(a: Dist, b: Dist, k: int)
    ensures Coef(Conv(a, b), k) == ConvAt(a, b, k)
  {
    if k !in PairSums(a.Keys, b.Keys) {
      assert forall i :: 0 <= i < k + 1 ==> Term(a, b, k, i) == 0;
      SumZero(0, k + 1, i => Term(a, b, k, i));
    }
  }

  lemma PairSumsCommute(s: set<nat>, t: set<nat>)
    ensures PairSums(s, t) == PairSums(t, s)
  {
    forall k | k in PairSums(s, t)
      ensures k in PairSums(t, s)
    {
      var m1, m2 :| m1 in s && m2 in t && k == m1 + m2;
      InPairSums(t, s, m2, m1);
    }
    forall k | k in PairSums(t, s)
      ensures k in PairSums(s, t)
    {
      var m1, m2 :| m1 in t && m2 in s && k == m1 + m2;
      InPairSums(s, t, m2, m1);
    }
  }

  lemma ConvAtCommutes(a: Dist, b: Dist, k: int)
    ensures ConvAt(a, b, k) == ConvAt(b, a, k)
  {
    if k >= 0 {
      SumReverse(k + 1, i => Term(a, b, k, i), i => Term(b, a, k, i));
    }
  }

  /** Convolution is commutative. */
  lemma ConvCommutes(a: Dist, b: Dist)
    ensures Conv(a, b) == Conv(b, a)
  {
    PairSumsCommute(a.Keys, b.Keys);
    forall k
      ensures Coef(Conv(a, b), k) == Coef(Conv(b, a), k)
    {
      CoefConv(a, b, k);
      CoefConv(b, a, k);
      ConvAtCommutes(a, b, k);
    }
    DistEq(Conv(a, b), Conv(b, a));
  }

  /** {0: 1} is a right identity... */
  lemma ConvUnitRight(a: Dist)
    ensures Conv(a, Unit()) == a
  {
    ConvKeys(a, Unit());
    PairSumsZero(a.Keys);
    assert Unit().Keys == {0};
    forall k
      ensures Coef(Conv(a, Unit()), k) == Coef(a, k)
    {
      CoefConv(a, Unit(), k);
      ConvAtUnit(a, k);
    }
    DistEq(Conv(a, Unit()), a);
  }

  lemma PairSumsZero(s: set<nat>)
    ensures PairSums(s, {0}) == s
  {
    forall k | k in s
      ensures k in PairSums(s, {0})
    {
      InPairSums(s, {0}, k, 0);
    }
  }

  lemma ConvAtUnit(a: Dist, k: int)
    ensures ConvAt(a, Unit(), k) == Coef(a, k)
  {
    var f := i => Term(a, Unit(), k, i);
    assert forall i :: 0 <= i < k + 1 && i != k ==> f(i) == 0;
    SumPoint(0, k + 1, k, f);
  }

  /** ... and, by commutativity, a left identity. */
  lemma ConvUnitLeft(a: Dist)
    ensures Conv(Unit(), a) == a
  {
    ConvCommutes(Unit(), a);
    ConvUnitRight(a);
  }

  /** Convolution is associative. */
  lemma ConvAssociates(a: Dist, b: Dist, c: Dist)
    ensures Conv(Conv(a, b), c) == Conv(a, Conv(b, c))
  {
    AssocKeys(a, b, c);
    forall k
      ensures Coef(Conv(Conv(a, b), c), k) == Coef(Conv(a, Conv(b, c)), k)
    {
      CoefConv(Conv(a, b), c, k);
      CoefConv(a, Conv(b, c), k);
      if k >= 0 {
        ConvAtAssociates(a, b, c, k);
      }
    }
    DistEq(Conv(Conv(a, b), c), Conv(a, Conv(b, c)));
  }

  lemma AssocKeys(a: Dist, b: Dist, c: Dist)
    ensures Conv(Conv(a, b), c).Keys == Conv(a, Conv(b, c)).Keys
  {
    ConvKeys(a, b);
    ConvKeys(b, c);
    ConvKeys(Conv(a, b), c);
    ConvKeys(a, Conv(b, c));
    PairSumsAssociate(a.Keys, b.Keys, c.Keys);
  }

  lemma PairSumsAssociate(s: set<nat>, t: set<nat>, u: set<nat>)
    ensures PairSums(PairSums(s, t), u) == PairSums(s, PairSums(t, u))
  {
    forall k | k in PairSums(PairSums(s, t), u)
      ensures k in PairSums(s, PairSums(t, u))
    {
      var j, m3 :| j in PairSums(s, t) && m3 in u && k == j + m3;
      var m1, m2 :| m1 in s && m2 in t && j == m1 + m2;
      InPairSums(t, u, m2, m3);
      InPairSums(s, PairSums(t, u), m1, m2 + m3);
    }
    forall k | k in PairSums(s, PairSums(t, u))
      ensures k in PairSums(PairSums(s, t), u)
    {
      var m1, j :| m1 in s && j in PairSums(t, u) && k == m1 + j;
      var m2, m3 :| m2 in t && m3 in u && j == m2 + m3;
      InPairSums(s, t, m1, m2);
      InPairSums(PairSums(s, t), u, m1 + m2, m3);
    }
  }

  /** ConvAt as a sum over any term function that agrees with its terms. */
  lemma ConvAtAsSum(a: Dist, b: Dist, k: int, f: int -> nat)
    requires forall i :: 0 <= i < k + 1 ==> f(i) == Term(a, b, k, i)
    ensures ConvAt(a, b, k) == Sum(0, k + 1, f)
  {
    SumExt(0, k + 1, i => Term(a, b, k, i), f);
  }

  /** One term of the triple sum: a(i) * b(j - i) * c(k - j), where j is the
      running total after a and b. */
  function Triple(a: Dist, b: Dist, c: Dist, k: int, i: int, j: int): nat
  {
    Coef(a, i) * Coef(b, j - i) * Coef(c, k - j)
  }

  /** Row j of the triple sum: the sum of Triple(.., i, j) over 0 <= i <= j. */
  function RowSum(a: Dist, b: Dist, c: Dist, k: int, j: int): nat
  {
    Sum(0, j + 1, i => Triple(a, b, c, k, i, j))
  }

  /** Column i of the triple sum: the sum of Triple(.., i, j) over i <= j <= k. */
  function ColSum(a: Dist, b: Dist, c: Dist, k: int, i: int): nat
  {
    Sum(i, k + 1, j => Triple(a, b, c, k, i, j))
  }

  /** The triple sum taken row by row, and column by column. */
  function RowTotal(a: Dist, b: Dist, c: Dist, k: int): nat
  {
    Sum(0, k + 1, j => RowSum(a, b, c, k, j))
  }

  function ColTotal(a: Dist, b: Dist, c: Dist, k: int): nat
  {
    Sum(0, k + 1, i => ColSum(a, b, c, k, i))
  }

  /** The coefficient identity behind associativity: both sides are the sum of
      a(i) * b(l) * c(n) over i + l + n == k, taken once by rows and once by columns. */
  lemma ConvAtAssociates(a: Dist, b: Dist, c: Dist, k: nat)
    ensures ConvAt(Conv(a, b), c, k) == ConvAt(a, Conv(b, c), k)
  {
    AssocLeft(a, b, c, k);
    AssocTriangle(a, b, c, k);
    AssocRight(a, b, c, k);
  }

  lemma AssocLeft(a: Dist, b: Dist, c: Dist, k: nat)
    ensures ConvAt(Conv(a, b), c, k) == RowTotal(a, b, c, k)
  {
    var rows: int -> nat := j => RowSum(a, b, c, k, j);
    forall j | 0 <= j < k + 1
      ensures rows(j) == Term(Conv(a, b), c, k, j)
    {
      CoefConv(a, b, j);
      AssocRow(a, b, c, k, j);
      MulComm(Coef(c, k - j), ConvAt(a, b, j));
    }
    ConvAtAsSum(Conv(a, b), c, k, rows);
    SumExt(0, k + 1, rows, j => RowSum(a, b, c, k, j));
  }

  lemma AssocRight(a: Dist, b: Dist, c: Dist, k: nat)
    ensures ConvAt(a, Conv(b, c), k) == ColTotal(a, b, c, k)
  {
    var cols: int -> nat := i => ColSum(a, b, c, k, i);
    forall i | 0 <= i < k + 1
      ensures cols(i) == Term(a, Conv(b, c), k, i)
    {
      CoefConv(b, c, k - i);
      AssocColumn(a, b, c, k, i);
    }
    ConvAtAsSum(a, Conv(b, c), k, cols);
    SumExt(0, k + 1, cols, i => ColSum(a, b, c, k, i));
  }

  lemma AssocTriangle(a: Dist, b: Dist, c: Dist, k: nat)
    ensures RowTotal(a, b, c, k) == ColTotal(a, b, c, k)
  {
    var F := (i: int, j: int) => Triple(a, b, c, k, i, j);
    forall j | 0 <= j < k + 1
      ensures RowSum(a, b, c, k, j) == Sum(0, j + 1, i => F(i, j))
    {
      SumExt(0, j + 1, i => Triple(a, b, c, k, i, j), i => F(i, j));
    }
    forall i | 0 <= i < k + 1
      ensures ColSum(a, b, c, k, i) == Sum(i, k + 1, j => F(i, j))
    {
      SumExt(i, k + 1, j => Triple(a, b, c, k, i, j), j => F(i, j));
    }
    SumTriangle(k + 1, F, j => RowSum(a, b, c, k, j), i => ColSum(a, b, c, k, i));
  }

  /** Row j of the triple sum is the j-th term of (a * b) * c. */
  lemma AssocRow(a: Dist, b: Dist, c: Dist, k: int, j: nat)
    ensures RowSum(a, b, c, k, j) == Coef(c, k - j) * ConvAt(a, b, j)
  {
    var f: int -> nat := i => Term(a, b, j, i);
    var g: int -> nat := i => Triple(a, b, c, k, i, j);
    var s := Coef(c, k - j);
    forall i | 0 <= i < j + 1
      ensures g(i) == s * f(i)
    {
      MulRotate(Coef(a, i), Coef(b, j - i), s);
    }
    SumScale(0, j + 1, s, f, g);
    ConvAtAsSum(a, b, j, f);
    SumExt(0, j + 1, g, i => Triple(a, b, c, k, i, j));
  }

  /** Column i of the triple sum is the i-th term of a * (b * c). */
  lemma AssocColumn(a: Dist, b: Dist, c: Dist, k: int, i: nat)
    requires i <= k
    ensures ColSum(a, b, c, k, i) == Coef(a, i) * ConvAt(b, c, k - i)
  {
    ColumnFactor(a, b, c, k, i);
    ColumnShift(b, c, k, i);
  }

  /** The terms of column i after taking out a(i). */
  function ColumnRest(b: Dist, c: Dist, k: int, i: int): nat
  {
    Sum(i, k + 1, j => Term(b, c, k - i, j - i))
  }

  lemma ColumnFactor(a: Dist, b: Dist, c: Dist, k: int, i: nat)
    requires i <= k
    ensures ColSum(a, b, c, k, i) == Coef(a, i) * ColumnRest(b, c, k, i)
  {
    var x := Coef(a, i);
    var inner: int -> nat := j => Term(b, c, k - i, j - i);
    var g: int -> nat := j => Triple(a, b, c, k, i, j);
    forall j | i <= j < k + 1
      ensures g(j) == x * inner(j)
    {
      TripleFactor(a, b, c, k, i, j);
    }
    SumScale(i, k + 1, x, inner, g);
    SumExt(i, k + 1, g, j => Triple(a, b, c, k, i, j));
    SumExt(i, k + 1, inner, j => Term(b, c, k - i, j - i));
  }

  lemma TripleFactor(a: Dist, b: Dist, c: Dist, k: int, i: int, j: int)
    ensures Triple(a, b, c, k, i, j) == Coef(a, i) * Term(b, c, k - i, j - i)
  {
    assert k - i - (j - i) == k - j;
    MulAssoc(Coef(a, i), Coef(b, j - i), Coef(c, k - j));
  }

  lemma ColumnShift(b: Dist, c: Dist, k: int, i: nat)
    requires i <= k
    ensures ColumnRest(b, c, k, i) == ConvAt(b, c, k - i)
  {
    SumShift(i, k + 1, i, 0, k - i + 1, j => Term(b, c, k - i, j - i), l => Term(b, c, k - i, l));
  }

  lemma MulComm(x: int, y: int)
    ensures x * y == y * x
  {
  }

  lemma MulRotate(x: int, y: int, z: int)
    ensures x * y * z == z * (x * y)
  {
  }

  lemma MulAssoc(x: int, y: int, z: int)
    ensures x * y * z == x * (y * z)
  {
  }

  // ---------------------------------------------------------------------
  // Linearity, used by the nested loop of `convolve`.

  lemma AddEmpty(p: Dist)
    ensures Add(p, map[]) == p
  {
    DistEq(Add(p, map[]), p);
  }

  lemma RestrictAll(a: Dist)
    ensures Restrict(a, a.Keys) == a
  {
  }

  lemma RestrictNone(a: Dist)
    ensures Restrict(a, {}) == map[]
  {
  }

  /** Adding one more key to the restricting set adds one single-key summand. */
  lemma RestrictGrow(a: Dist, done: set<nat>, m: nat)
    requires m in a && m !in done
    ensures Restrict(a, done + {m}) == Add(Restrict(a, done), map[m := a[m]])
  {
    DistEq(Restrict(a, done + {m}), Add(Restrict(a, done), map[m := a[m]]));
  }

  /** The product of two single-key distributions. */
  lemma ConvSingles(m1: nat, f1: nat, m2: nat, f2: nat, n: nat, v: nat)
    requires n == m1 + m2 && v == f1 * f2
    ensures Conv(map[m1 := f1], map[m2 := f2]) == map[n := v]
  {
    var p, q := map[m1 := f1], map[m2 := f2];
    ConvKeys(p, q);
    InPairSums(p.Keys, q.Keys, m1, m2);
    forall k
      ensures Coef(Conv(p, q), k) == Coef(map[n := v], k)
    {
      CoefConv(p, q, k);
      ConvAtSingles(m1, f1, m2, f2, n, v, k);
    }
    DistEq(Conv(p, q), map[n := v]);
  }

  lemma ConvAtSingles(m1: nat, f1: nat, m2: nat, f2: nat, n: nat, v: nat, k: int)
    requires n == m1 + m2 && v == f1 * f2
    ensures ConvAt(map[m1 := f1], map[m2 := f2], k) == Coef(map[n := v], k)
  {
    var p, q := map[m1 := f1], map[m2 := f2];
    assert forall i :: 0 <= i < k + 1 && i != m1 ==> Term(p, q, k, i) == 0;
    SumPoint(0, k + 1, m1, i => Term(p, q, k, i));
  }

  lemma PairSumsUnion(s: set<nat>, t: set<nat>, u: set<nat>)
    ensures PairSums(s + t, u) == PairSums(s, u) + PairSums(t, u)
  {
    forall k | k in PairSums(s, u) + PairSums(t, u)
      ensures k in PairSums(s + t, u)
    {
      if k in PairSums(s, u) {
        var m1, m2 :| m1 in s && m2 in u && k == m1 + m2;
        InPairSums(s + t, u, m1, m2);
      } else {
        var m1, m2 :| m1 in t && m2 in u && k == m1 + m2;
        InPairSums(s + t, u, m1, m2);
      }
    }
  }

  lemma TermAdd(p: Dist, q: Dist, b: Dist, k: int, i: int)
    ensures Term(Add(p, q), b, k, i) == Term(p, b, k, i) + Term(q, b, k, i)
  {
    MulAdd(Coef(b, k - i), Coef(p, i), Coef(q, i));
    MulComm(Coef(b, k - i), Coef(Add(p, q), i));
    MulComm(Coef(b, k - i), Coef(p, i));
    MulComm(Coef(b, k - i), Coef(q, i));
  }

  /** Convolution distributes over Add on the left. */
  lemma ConvAddLeft(p: Dist, q: Dist, b: Dist)
    ensures Conv(Add(p, q), b) == Add(Conv(p, b), Conv(q, b))
  {
    ConvAddKeys(p, q, b);
    forall k
      ensures Coef(Conv(Add(p, q), b), k) == Coef(Add(Conv(p, b), Conv(q, b)), k)
    {
      CoefConv(Add(p, q), b, k);
      CoefConv(p, b, k);
      CoefConv(q, b, k);
      ConvAtAdd(p, q, b, k);
    }
    DistEq(Conv(Add(p, q), b), Add(Conv(p, b), Conv(q, b)));
  }

  lemma ConvAddKeys(p: Dist, q: Dist, b: Dist)
    ensures Conv(Add(p, q), b).Keys == Add(Conv(p, b), Conv(q, b)).Keys
  {
    ConvKeys(Add(p, q), b);
    ConvKeys(p, b);
    ConvKeys(q, b);
    assert Add(p, q).Keys == p.Keys + q.Keys;
    PairSumsUnion(p.Keys, q.Keys, b.Keys);
  }

  lemma ConvAtAdd(p: Dist, q: Dist, b: Dist, k: int)
    ensures ConvAt(Add(p, q), b, k) == ConvAt(p, b, k) + ConvAt(q, b, k)
  {
    forall i | 0 <= i < k + 1
      ensures Term(Add(p, q), b, k, i) == Term(p, b, k, i) + Term(q, b, k, i)
    {
      TermAdd(p, q, b, k, i);
    }
    SumAdd(0, k + 1, i => Term(p, b, k, i), i => Term(q, b, k, i), i => Term(Add(p, q), b, k, i));
  }

  /** Convolution distributes over Add on the right. */
  lemma ConvAddRight(c: Dist, p: Dist, q: Dist)
    ensures Conv(c, Add(p, q)) == Add(Conv(c, p), Conv(c, q))
  {
    ConvCommutes(c, Add(p, q));
    ConvCommutes(c, p);
    ConvCommutes(c, q);
    ConvAddLeft(p, q, c);
  }

  lemma AddAssociates(p: Dist, q: Dist, u: Dist)
    ensures Add(Add(p, q), u) == Add(p, Add(q, u))
  {
    DistEq(Add(Add(p, q), u), Add(p, Add(q, u)));
  }

  /** Adding a single-key distribution is the source's `get(nm) || 0` update. */
  lemma AddSingle(r: Dist, n: nat, v: nat)
    ensures Add(r, map[n := v]) == r[n := Coef(r, n) + v]
  {
    DistEq(Add(r, map[n := v]), r[n := Coef(r, n) + v]);
  }

  /** One step of the inner loop, on the product side: visiting the key om
      of b adds n == sm + om with count v == sf * b[om] to the product of
      {sm: sf} with the visited part of b. */
  lemma InnerStep(sm: nat, sf: nat, b: Dist, seen: set<nat>, om: nat, n: nat, v: nat)
    requires om in b && om !in seen
    requires n == sm + om && v == sf * b[om]
    ensures Conv(map[sm := sf], Restrict(b, seen + {om}))
              == Add(Conv(map[sm := sf], Restrict(b, seen)), map[n := v])
  {
    ConvSingles(sm, sf, om, b[om], n, v);
    ConvAddRight(map[sm := sf], Restrict(b, seen), map[om := b[om]]);
    RestrictGrow(b, seen, om);
  }

  /** One iteration of the inner loop of `convolve`: adding v at n to the
      accumulator extends the product with the visited part of b by om. */
  lemma RowStep(r0: Dist, sm: nat, sf: nat, b: Dist, seen: set<nat>, om: nat,
                r: Dist, n: nat, v: nat, r': Dist)
    requires om in b && om !in seen
    requires n == sm + om && v == sf * b[om]
    requires r == Add(r0, Conv(map[sm := sf], Restrict(b, seen)))
    requires r' == Add(r, map[n := v])
    ensures r' == Add(r0, Conv(map[sm := sf], Restrict(b, seen + {om})))
  {
    InnerStep(sm, sf, b, seen, om, n, v);
    AddAssociates(r0, Conv(map[sm := sf], Restrict(b, seen)), map[n := v]);
  }

  /** One step of the outer loop: once the inner loop has added the product
      of {sm: a[sm]} with all of b, the result covers one more key of a. */
  lemma OuterStep(a: Dist, b: Dist, done: set<nat>, sm: nat)
    requires sm in a && sm !in done
    ensures Add(Conv(Restrict(a, done), b), Conv(map[sm := a[sm]], b))
              == Conv(Restrict(a, done + {sm}), b)
  {
    ConvAddLeft(Restrict(a, done), map[sm := a[sm]], b);
    RestrictGrow(a, done, sm);
  }

  /** The product with the empty distribution is empty. */
  lemma ConvEmpty(b: Dist)
    ensures Conv(map[], b) == map[] && Conv(b, map[]) == map[]
  {
    ConvKeys(map[], b);
    ConvKeys(b, map[]);
  }

  /** `new_map.set(nm, (new_map.get(nm) || 0n) + nf)`: adds nf at nm. */
  method AddAt(r: Dist, nm: nat, nf: nat) returns (r': Dist)
    ensures r' == Add(r, map[nm := nf])
  {
    var oldNf := if nm in r then r[nm] else 0;
    r' := r[nm := oldNf + nf];
    AddSingle(r, nm, nf);
  }

  /** The inner loop of `convolve` for one key sm (with count sf) of the
      graph: for every key om of other, add sf * of at sm + om. */
  method AccumulateRow(r0: Dist, sm: nat, sf: nat, b: Dist) returns (r: Dist)
    ensures r == Add(r0, Conv(map[sm := sf], b))
  {
    r := r0;
    var rest := b.Keys;
    ghost var seen: set<nat> := {};
    RestrictNone(b);
    ConvEmpty(map[sm := sf]);
    AddEmpty(r0);
    while rest != {}
      invariant seen + rest == b.Keys && seen !! rest
      invariant r == Add(r0, Conv(map[sm := sf], Restrict(b, seen)))
      decreases rest
    {
      var om :| om in rest;
      var nm := sm + om;
      var nf := sf * b[om];
      MulNat(sf, b[om]);
      var r' := AddAt(r, nm, nf);
      RowStep(r0, sm, sf, b, seen, om, r, nm, nf, r');
      r := r';
      rest := rest - {om};
      seen := seen + {om};
    }
    assert seen == b.Keys;
    RestrictAll(b);
  }

  /** `convolve`: for every pair of keys (sm, om), add sf * of at sm + om. The
      result is the product polynomial, whatever order the keys are visited in. */
  method ConvolveMaps(a: Dist, b: Dist) returns (r: Dist)
    ensures r == Conv(a, b)
  {
    r := map[];
    var todo := a.Keys;
    ghost var done: set<nat> := {};
    RestrictNone(a);
    ConvEmpty(b);
    while todo != {}
      invariant done + todo == a.Keys && done !! todo
      invariant r == Conv(Restrict(a, done), b)
      decreases todo
    {
      var sm :| sm in todo;
      OuterStep(a, b, done, sm);
      r := AccumulateRow(r, sm, a[sm], b);
      todo := todo - {sm};
      done := done + {sm};
    }
    assert done == a.Keys;
    RestrictAll(a);
  }

  lemma MulNat(x: nat, y: nat)
    ensures x * y >= 0
  {
  }

  lemma MulAdd(a: int, b: int, c: int)
    ensures a * (b + c) == a * b + a * c
  {
  }

  // ---------------------------------------------------------------------
  // The graph object.

  /** A mine frequency graph: the distribution of one tile (a local graph,
      with an id and a position) or of a whole subsystem (the global graph,
      id None). */
  class MineFrequencyGraph {
    const subsystem: nat
    var id: Option<nat>
    var x: int
    var y: int
    var frequencies: Dist

    constructor(subsystem: nat)
      ensures this.subsystem == subsystem
      ensures id == None && frequencies == map[]
    {
      this.subsystem := subsystem;
      id := None;
      frequencies := map[];
    }

    /** `assign_id`: marks the graph as local to the tile (x, y). */
    method AssignId(id: nat, x: int, y: int)
      modifies this`id, this`x, this`y
      ensures this.id == Some(id) && this.x == x && this.y == y
    {
      this.id := Some(id);
      this.x := x;
      this.y := y;
    }

    /** `assign_mf`: records f solutions with m mines (overwriting). */
    method AssignMf(m: nat, f: nat)
      modifies this`frequencies
      ensures frequencies == old(frequencies)[m := f]
    {
      frequencies := frequencies[m := f];
    }

    /** `convolve`: replaces the distribution by its product with other. */
    method Convolve(other: Dist)
      modifies this`frequencies
      ensures frequencies == Conv(old(frequencies), other)
    {
      frequencies := ConvolveMaps(frequencies, other);
    }
  }
}
