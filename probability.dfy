/** The global mine probability of `gm_probability` in www/index.js, stated
    on values: the budget of mines left for the board, the weighted
    denominator and numerators, the error cases and the shading of every
    tile, with the lemmas that say what those numbers mean. */
module Probability {
  import opened Wrappers
  import opened Sums
  import opened Binomial
  import opened Distribution

  /** The tile kinds that `gm_probability` tells apart (`MsType`); every
      revealed number and every other kind is `Other`. */
  datatype MsType = Unknown | Mine | Flag | Other

  /** The class a probability gives its tile: `tile-pb-mine`, `tile-pb-clear`
      or `tile-pb-color` (a colour in between). */
  datatype Shade = PbMine | PbClear | PbColor

  /** A local graph as `gm_probability` reads it: its tile and its distribution. */
  datatype LocalTile = LocalTile(x: int, y: int, dist: Dist)

  /** The probability written on a tile next to the numbers; its denominator
      is the one shared by the whole board. */
  datatype TileShare = TileShare(x: int, y: int, numerator: nat, shade: Shade)

  /** What `gm_probability` shows: one of its four error messages (with the
      numbers the message quotes), or the probabilities. `placed` is the
      number of mines and flags on the board when flags are included, and 0
      otherwise; `budget` is the mine count minus `placed`; `free` is the
      number of unknown tiles that touch no number. */
  datatype Outcome =
    | NegativeBudget(budget: int, placed: nat)
    | TooFewMines(budget: int, placed: nat, minMines: nat)
    | TooManyMines(budget: int, placed: nat, maxMines: nat, free: int)
    | TooManyNoRegions(budget: int, placed: nat, free: int)
    | Shown(tiles: seq<seq<TileShare>>, denominator: nat, freeNumerator: nat, free: int,
            freeShade: Shade)

  /** The number of tiles of kind k. */
  function Count(board: seq<MsType>, k: MsType): nat
  {
    if |board| == 0 then 0
    else Count(board[..|board| - 1], k) + (if board[|board| - 1] == k then 1 else 0)
  }

  /** Every tile has exactly one kind. */
  lemma {:induction false} CountPartition(board: seq<MsType>)
    ensures Count(board, Unknown) + Count(board, Mine) + Count(board, Flag) + Count(board, Other) == |board|
  {
    if |board| > 0 {
      CountPartition(board[..|board| - 1]);
    }
  }

  /** The mines and flags subtracted from the mine count. */
  function Placed(board: seq<MsType>, includeFlags: bool): nat
  {
    if includeFlags then Count(board, Mine) + Count(board, Flag) else 0
  }

  /** The number of entries of a list of lists. */
  function TotalLength<T>(s: seq<seq<T>>): nat
  {
    if |s| == 0 then 0 else TotalLength(s[..|s| - 1]) + |s[|s| - 1]|
  }

  /** Lists of lists of the same shape have the same number of entries. */
  lemma {:induction false} TotalLengthShape<T, U>(s: seq<seq<T>>, u: seq<seq<U>>)
    requires |s| == |u| && forall i :: 0 <= i < |s| ==> |s[i]| == |u[i]|
    ensures TotalLength(s) == TotalLength(u)
  {
    if |s| > 0 {
      TotalLengthShape(s[..|s| - 1], u[..|u| - 1]);
    }
  }

  /** gf * comb(n, r - gm): the solutions with m mines next to the numbers,
      times the ways to put the other r - m mines on n free tiles. */
  function Weight(g: Dist, n: int, r: int, m: int): nat
  {
    Coef(g, m) * C(n, r - m)
  }

  /** The sum of the weights of every mine count 0 <= m <= top. Keys above
      top are the ones `gm_probability` skips. */
  function Weighted(g: Dist, n: int, r: int, top: int): nat
  {
    Sum(0, top + 1, m => Weight(g, n, r, m))
  }

  /** The shading of numerator n over denominator d. */
  function ShadeOf(n: nat, d: nat): (s: Shade)
    ensures s == PbMine <==> n == d
    ensures s == PbClear <==> n == 0 && n != d
  {
    if n == d then PbMine else if n == 0 then PbClear else PbColor
  }

  /** The probability of one local tile. */
  function ShareOf(tile: LocalTile, free: int, budget: int, den: nat): TileShare
  {
    var n := Weighted(tile.dist, free, budget, budget);
    TileShare(tile.x, tile.y, n, ShadeOf(n, den))
  }

  /** The probabilities of all local tiles, subsystem by subsystem. */
  function Shares(tiles: seq<seq<LocalTile>>, free: int, budget: int, den: nat): seq<seq<TileShare>>
  {
    seq(|tiles|, i requires 0 <= i < |tiles| =>
      seq(|tiles[i]|, t requires 0 <= t < |tiles[i]| => ShareOf(tiles[i][t], free, budget, den)))
  }

  /** The least element of a non-empty set. */
  ghost function MinOf(s: set<nat>): (k: nat)
    requires s != {}
    ensures k in s && forall j :: j in s ==> k <= j
  {
    HasMin(s);
    var k :| k in s && forall j :: j in s ==> k <= j;
    k
  }

  /** The greatest element of a non-empty set. */
  ghost function MaxOf(s: set<nat>): (k: nat)
    requires s != {}
    ensures k in s && forall j :: j in s ==> j <= k
  {
    HasMax(s);
    var k :| k in s && forall j :: j in s ==> j <= k;
    k
  }

  lemma HasMin(s: set<nat>)
    requires s != {}
    ensures exists k :: k in s && forall j :: j in s ==> k <= j
  {
    var k := LeastOf(s);
  }

  lemma HasMax(s: set<nat>)
    requires s != {}
    ensures exists k :: k in s && forall j :: j in s ==> j <= k
  {
    var k := GreatestOf(s);
  }

  lemma {:induction false} LeastOf(s: set<nat>) returns (k: nat)
    requires s != {}
    ensures k in s && forall j :: j in s ==> k <= j
    decreases |s|
  {
    var x :| x in s;
    var rest := s - {x};
    if rest == {} {
      k := x;
      forall j | j in s
        ensures k <= j
      {
        assert j !in rest;
      }
    } else {
      var r := LeastOf(rest);
      k := if x < r then x else r;
      forall j | j in s
        ensures k <= j
      {
        if j != x {
          assert j in rest;
        }
      }
    }
  }

  lemma {:induction false} GreatestOf(s: set<nat>) returns (k: nat)
    requires s != {}
    ensures k in s && forall j :: j in s ==> j <= k
    decreases |s|
  {
    var x :| x in s;
    var rest := s - {x};
    if rest == {} {
      k := x;
      forall j | j in s
        ensures j <= k
      {
        assert j !in rest;
      }
    } else {
      var r := GreatestOf(rest);
      k := if x > r then x else r;
      forall j | j in s
        ensures j <= k
      {
        if j != x {
          assert j in rest;
        }
      }
    }
  }

  /** The least mine count of any solution (`min_gm`). */
  ghost function MinKey(g: Dist): nat
    requires g != map[]
  {
    MinOf(g.Keys)
  }

  /** The greatest mine count within the budget, or 0 (`max_gm`). */
  ghost function MaxUpTo(g: Dist, budget: int): nat
  {
    MaxOf({0} + set k | k in g && k <= budget)
  }

  /** The keys `gm_probability` skips because they need more mines than the budget. */
  function Above(g: Dist, budget: int): set<nat>
  {
    set k | k in g && k > budget
  }

  /** `gm_probability`, as a function of the converged global distribution
      (None when there are no subsystems), the converged local
      distributions, the board, the flag option and the mine count. */
  ghost function GlobalProbability(g: Option<Dist>, tiles: seq<seq<LocalTile>>, board: seq<MsType>,
                                   includeFlags: bool, count: int): Outcome
  {
    var placed := Placed(board, includeFlags);
    var budget := count - placed;
    var free := Count(board, Unknown) - TotalLength(tiles);
    if budget < 0 then NegativeBudget(budget, placed)
    else match g
      case Some(d) =>
        if d != map[] && forall k :: k in d ==> k > budget then TooFewMines(budget, placed, MinKey(d))
        else
          var den := Weighted(d, free, budget, budget);
          var na := Weighted(d, free - 1, budget - 1, budget);
          if den == 0 then TooManyMines(budget, placed, MaxUpTo(d, budget), free)
          else Shown(Shares(tiles, free, budget, den), den, na, free, ShadeOf(na, den))
      case None =>
        if budget > free then TooManyNoRegions(budget, placed, free)
        else Shown(Shares(tiles, free, budget, 0), free, budget, free, ShadeOf(budget, free))
  }

  /** The branches of `GlobalProbability`, one at a time, for a caller that
      has computed the intermediate numbers. */
  lemma NegativeCase(g: Option<Dist>, tiles: seq<seq<LocalTile>>, board: seq<MsType>,
                     includeFlags: bool, count: int, placed: nat, budget: int)
    requires placed == Placed(board, includeFlags) && budget == count - placed && budget < 0
    ensures GlobalProbability(g, tiles, board, includeFlags, count) == NegativeBudget(budget, placed)
  {
  }

  lemma TooFewCase(d: Dist, tiles: seq<seq<LocalTile>>, board: seq<MsType>,
                   includeFlags: bool, count: int, placed: nat, budget: nat)
    requires placed == Placed(board, includeFlags) && budget == count - placed
    requires d != map[] && forall k :: k in d ==> k > budget
    ensures GlobalProbability(Some(d), tiles, board, includeFlags, count) ==
      TooFewMines(budget, placed, MinKey(d))
  {
  }

  lemma TooManyCase(d: Dist, tiles: seq<seq<LocalTile>>, board: seq<MsType>,
                    includeFlags: bool, count: int, placed: nat, budget: nat, free: int)
    requires placed == Placed(board, includeFlags) && budget == count - placed
    requires free == Count(board, Unknown) - TotalLength(tiles)
    requires !(d != map[] && forall k :: k in d ==> k > budget)
    requires Weighted(d, free, budget, budget) == 0
    ensures GlobalProbability(Some(d), tiles, board, includeFlags, count) ==
      TooManyMines(budget, placed, MaxUpTo(d, budget), free)
  {
  }

  lemma ShownCase(d: Dist, tiles: seq<seq<LocalTile>>, board: seq<MsType>,
                  includeFlags: bool, count: int, placed: nat, budget: nat, free: int, den: nat, na: nat)
    requires placed == Placed(board, includeFlags) && budget == count - placed
    requires free == Count(board, Unknown) - TotalLength(tiles)
    requires !(d != map[] && forall k :: k in d ==> k > budget)
    requires den == Weighted(d, free, budget, budget) && den != 0
    requires na == Weighted(d, free - 1, budget - 1, budget)
    ensures GlobalProbability(Some(d), tiles, board, includeFlags, count) ==
      Shown(Shares(tiles, free, budget, den), den, na, free, ShadeOf(na, den))
  {
  }

  lemma NoRegionsCase(tiles: seq<seq<LocalTile>>, board: seq<MsType>,
                      includeFlags: bool, count: int, placed: nat, budget: nat, free: int)
    requires placed == Placed(board, includeFlags) && budget == count - placed
    requires free == Count(board, Unknown) - TotalLength(tiles)
    ensures budget > free ==>
      GlobalProbability(None, tiles, board, includeFlags, count) == TooManyNoRegions(budget, placed, free)
    ensures budget <= free ==>
      GlobalProbability(None, tiles, board, includeFlags, count) ==
      Shown(Shares(tiles, free, budget, 0), free as nat, budget, free, ShadeOf(budget, free as nat))
  {
  }

  // ---------------------------------------------------------------------
  // What the numbers mean

  lemma MulPositive(x: nat, y: nat)
    ensures x * y > 0 <==> x > 0 && y > 0
  {
    if x > 0 && y > 0 {
      assert x * y >= y by { MulGrows(x, y); }
    }
  }

  lemma MulGrows(x: nat, y: nat)
    requires x > 0
    ensures x * y >= y
  {
  }

  /** A weight is positive exactly when the solutions exist and the rest of
      the mines fit on the free tiles. */
  lemma WeightPositive(g: Dist, n: int, r: int, m: int)
    ensures Weight(g, n, r, m) > 0 <==> Coef(g, m) > 0 && 0 <= r - m <= n
  {
    MulPositive(Coef(g, m), C(n, r - m));
    CPositive(n, r - m);
  }

  /** The denominator is zero (the "too many mines" error) unless some
      solution has gm <= M mines and the other M - gm mines fit on the A free
      tiles. */
  lemma DenominatorPositive(g: Dist, free: int, budget: int)
    ensures Weighted(g, free, budget, budget) > 0 <==>
      exists k :: k in g && g[k] > 0 && k <= budget <= k + free
  {
    SumPositive(0, budget + 1, m => Weight(g, free, budget, m));
    if Weighted(g, free, budget, budget) > 0 {
      var m :| 0 <= m < budget + 1 && Weight(g, free, budget, m) > 0;
      WeightPositive(g, free, budget, m);
      assert m in g && g[m] > 0 && m <= budget <= m + free;
    }
    if exists k :: k in g && g[k] > 0 && k <= budget <= k + free {
      var k :| k in g && g[k] > 0 && k <= budget <= k + free;
      WeightPositive(g, free, budget, k);
      assert 0 <= k < budget + 1 && (m => Weight(g, free, budget, m))(k) > 0;
    }
  }

  /** When every solution needs more mines than the budget (the "too little
      mines" error) the denominator is zero as well, so that check has to
      come first to give its own message. */
  lemma TooFewHasNoDenominator(g: Dist, free: int, budget: int)
    requires forall k :: k in g ==> k > budget
    ensures Weighted(g, free, budget, budget) == 0
  {
    DenominatorPositive(g, free, budget);
  }

  /** A tile numerator never exceeds the denominator when the tile's
      distribution lies below the global one, so every probability is at most 1. */
  lemma NumeratorBounded(l: Dist, g: Dist, free: int, budget: int)
    requires Below(l, g)
    ensures Weighted(l, free, budget, budget) <= Weighted(g, free, budget, budget)
  {
    forall m | 0 <= m < budget + 1
      ensures Weight(l, free, budget, m) <= Weight(g, free, budget, m)
    {
      MulLe(Coef(l, m), Coef(g, m), C(free, budget - m));
    }
    SumMono(0, budget + 1, m => Weight(l, free, budget, m), m => Weight(g, free, budget, m));
  }

  /** A tile is shaded as a certain mine exactly when, for every mine count
      that can still fill the board, every solution has the tile as a mine. */
  lemma CertainMine(l: Dist, g: Dist, free: int, budget: int)
    requires Below(l, g)
    ensures Weighted(l, free, budget, budget) == Weighted(g, free, budget, budget) <==>
      forall m :: 0 <= m <= budget && C(free, budget - m) > 0 ==> Coef(l, m) == Coef(g, m)
  {
    NumeratorBounded(l, g, free, budget);
    if forall m :: 0 <= m <= budget && C(free, budget - m) > 0 ==> Coef(l, m) == Coef(g, m) {
      forall m | 0 <= m < budget + 1
        ensures Weight(l, free, budget, m) == Weight(g, free, budget, m)
      {
        if C(free, budget - m) > 0 {
          assert Coef(l, m) == Coef(g, m);
        }
      }
      SumExt(0, budget + 1, m => Weight(l, free, budget, m), m => Weight(g, free, budget, m));
    } else {
      var p :| 0 <= p <= budget && C(free, budget - p) > 0 && Coef(l, p) != Coef(g, p);
      // the difference of the two sums is a sum of non-negative terms, one of them positive
      forall m | 0 <= m < budget + 1
        ensures Weight(l, free, budget, m) <= Weight(g, free, budget, m)
      {
        MulLe(Coef(l, m), Coef(g, m), C(free, budget - m));
      }
      assert Weight(l, free, budget, p) < Weight(g, free, budget, p) by {
        MulLess(Coef(l, p), Coef(g, p), C(free, budget - p));
      }
      SumStrict(0, budget + 1, p, m => Weight(l, free, budget, m), m => Weight(g, free, budget, m));
    }
  }

  lemma MulLess(x: nat, y: nat, z: nat)
    requires x < y && z > 0
    ensures x * z < y * z
  {
    assert y * z == x * z + (y - x) * z;
    MulGrows(z, y - x);
  }

  /** Termwise at most, and strictly less at one point, gives a strictly smaller sum. */
  lemma {:induction false} SumStrict(lo: int, hi: int, p: int, f: int -> nat, g: int -> nat)
    requires lo <= p < hi
    requires forall i :: lo <= i < hi ==> f(i) <= g(i)
    requires f(p) < g(p)
    ensures Sum(lo, hi, f) < Sum(lo, hi, g)
    decreases hi - lo
  {
    if lo == p {
      SumMono(lo + 1, hi, f, g);
    } else {
      SumStrict(lo + 1, hi, p, f, g);
    }
  }

  /** A tile is shaded as certainly clear exactly when, for every mine count
      that can still fill the board, no solution has the tile as a mine. */
  lemma CertainClear(l: Dist, free: int, budget: int)
    ensures Weighted(l, free, budget, budget) == 0 <==>
      forall m :: 0 <= m <= budget && C(free, budget - m) > 0 ==> Coef(l, m) == 0
  {
    SumPositive(0, budget + 1, m => Weight(l, free, budget, m));
    if Weighted(l, free, budget, budget) > 0 {
      var m :| 0 <= m < budget + 1 && Weight(l, free, budget, m) > 0;
      WeightPositive(l, free, budget, m);
      CPositive(free, budget - m);
    } else {
      forall m | 0 <= m <= budget && C(free, budget - m) > 0
        ensures Coef(l, m) == 0
      {
        assert 0 <= m < budget + 1;
        assert (k => Weight(l, free, budget, k))(m) == 0;
        MulPositive(Coef(l, m), C(free, budget - m));
      }
    }
  }

  /** gf * (M - gm) * comb(A, M - gm): the weighted number of mines that a
      solution with gm mines leaves for the free tiles. */
  function FreeMines(g: Dist, free: int, budget: int, m: int): nat
  {
    if m <= budget then Coef(g, m) * ((budget - m) * C(free, budget - m)) else 0
  }

  /** The free numerator counts mines on free tiles: A times the free
      numerator is the weighted number of mines left for the A free tiles,
      so the free probability na / den is that expected count divided by A. */
  lemma FreeExpectation(g: Dist, free: nat, budget: int)
    ensures free * Weighted(g, free - 1, budget - 1, budget) ==
      Sum(0, budget + 1, m => FreeMines(g, free, budget, m))
  {
    forall m | 0 <= m < budget + 1
      ensures FreeMines(g, free, budget, m) == free * Weight(g, free - 1, budget - 1, m)
    {
      FreeTerm(Coef(g, m), free, budget - m);
    }
    SumScale(0, budget + 1, free, m => Weight(g, free - 1, budget - 1, m),
             m => FreeMines(g, free, budget, m));
  }

  /** One term of `FreeExpectation`, by the absorption identity. */
  lemma FreeTerm(c: nat, free: nat, k: int)
    requires k >= 0
    ensures c * (k * C(free, k)) == free * (c * C(free - 1, k - 1))
  {
    Absorption(free, k);
    MulAssocNat(c, k, C(free, k));
    MulAssocNat(c, free, C(free - 1, k - 1));
    assert c * (k * C(free, k)) == c * (free * C(free - 1, k - 1));
  }

  lemma MulAssocNat(x: int, y: int, z: int)
    ensures x * (y * z) == (x * y) * z && x * (y * z) == y * (x * z)
  {
  }

  /** With a single solution of m0 mines the free probability is (M - m0) / A:
      A * na == (M - m0) * den. */
  lemma SingleSolution(m0: nat, f: nat, free: nat, budget: int)
    requires m0 <= budget
    ensures free * Weighted(map[m0 := f], free - 1, budget - 1, budget) ==
      (budget - m0) * Weighted(map[m0 := f], free, budget, budget)
  {
    var g := map[m0 := f];
    FreeExpectation(g, free, budget);
    assert forall m :: 0 <= m < budget + 1 && m != m0 ==> FreeMines(g, free, budget, m) == 0;
    SumPoint(0, budget + 1, m0, m => FreeMines(g, free, budget, m));
    assert forall m :: 0 <= m < budget + 1 && m != m0 ==> Weight(g, free, budget, m) == 0;
    SumPoint(0, budget + 1, m0, m => Weight(g, free, budget, m));
    MulAssocNat(f, budget - m0, C(free, budget - m0));
  }

  /** The weighted sum of the one empty solution {0: 1} is a single binomial. */
  lemma UnitWeighted(n: int, r: int, top: nat)
    ensures Weighted(Unit(), n, r, top) == C(n, r)
  {
    forall m | 0 <= m < top + 1 && m != 0
      ensures Weight(Unit(), n, r, m) == 0
    {
      assert Coef(Unit(), m) == 0;
    }
    SumPoint(0, top + 1, 0, m => Weight(Unit(), n, r, m));
    assert Coef(Unit(), 0) == 1;
  }

  /** Without subsystems the source takes a shortcut: the error when M > A,
      and otherwise M / A. That is exactly what the general formula gives for
      the one empty solution {0: 1}: its denominator comb(A, M) vanishes
      exactly when M > A, and A * comb(A - 1, M - 1) == M * comb(A, M). */
  lemma NoRegionsShortcut(free: nat, budget: nat)
    ensures Weighted(Unit(), free, budget, budget) == C(free, budget)
    ensures Weighted(Unit(), free, budget, budget) == 0 <==> budget > free
    ensures free * Weighted(Unit(), free - 1, budget - 1, budget) ==
      budget * Weighted(Unit(), free, budget, budget)
  {
    UnitWeighted(free, budget, budget);
    UnitWeighted(free - 1, budget - 1, budget);
    CPositive(free, budget);
    Absorption(free, budget);
  }

  // ---------------------------------------------------------------------
  // The loops of `gm_probability` over values

  /** The `forEach` over the board: the unknown tiles, and (with flags
      included) the mines and flags to subtract from the mine count. */
  method CountTiles(board: seq<MsType>, includeFlags: bool) returns (unknown: nat, placed: nat)
    ensures unknown == Count(board, Unknown)
    ensures placed == Placed(board, includeFlags)
  {
    unknown, placed := 0, 0;
    var i := 0;
    while i < |board|
      invariant 0 <= i <= |board|
      invariant unknown == Count(board[..i], Unknown)
      invariant placed == Placed(board[..i], includeFlags)
    {
      assert board[..i + 1][..i] == board[..i];
      if board[i] == Unknown {
        unknown := unknown + 1;
      }
      if includeFlags && (board[i] == Mine || board[i] == Flag) {
        placed := placed + 1;
      }
      i := i + 1;
    }
    assert board[..i] == board;
  }

  /** The weight of the keys seen so far. */
  function Seen(g: Dist, done: set<nat>, n: int, r: int, m: int): nat
  {
    if m >= 0 && m in done then Weight(g, n, r, m) else 0
  }

  /** Seeing one more key adds its weight when it is within the range. */
  lemma SeenStep(g: Dist, done: set<nat>, n: int, r: int, top: int, k: nat, w: nat)
    requires k !in done
    requires w == if k <= top then Weight(g, n, r, k) else 0
    ensures Sum(0, top + 1, m => Seen(g, done + {k}, n, r, m)) ==
      Sum(0, top + 1, m => Seen(g, done, n, r, m)) + w
  {
    if k <= top {
      SumBump(0, top + 1, k, m => Seen(g, done, n, r, m), m => Seen(g, done + {k}, n, r, m));
    } else {
      SumExt(0, top + 1, m => Seen(g, done + {k}, n, r, m), m => Seen(g, done, n, r, m));
    }
  }

  /** Once every key is seen the sum is the full weighted sum. */
  lemma SeenAll(g: Dist, n: int, r: int, top: int)
    ensures Sum(0, top + 1, m => Seen(g, g.Keys, n, r, m)) == Weighted(g, n, r, top)
  {
    SumExt(0, top + 1, m => Seen(g, g.Keys, n, r, m), m => Weight(g, n, r, m));
  }

  lemma SeenNone(g: Dist, n: int, r: int, top: int)
    ensures Sum(0, top + 1, m => Seen(g, {}, n, r, m)) == 0
  {
    SumZero(0, top + 1, m => Seen(g, {}, n, r, m));
  }

  /** gf * comb(n, r - gm) computed with `Comb`. */
  method WeightOf(g: Dist, gm: nat, n: int, r: int) returns (w: nat)
    requires gm in g
    ensures w == Weight(g, n, r, gm)
  {
    var c := Comb(n, r - gm);
    MulNat(g[gm], c);
    w := g[gm] * c;
  }

  /** The numerator of one local tile: the weights of the keys within the budget. */
  method TileNumerator(l: Dist, free: int, budget: nat) returns (n: nat)
    ensures n == Weighted(l, free, budget, budget)
  {
    n := 0;
    var rest := l.Keys;
    ghost var done: set<nat> := {};
    SeenNone(l, free, budget, budget);
    while rest != {}
      invariant done + rest == l.Keys && done !! rest
      invariant n == Sum(0, budget + 1, m => Seen(l, done, free, budget, m))
    {
      var gm :| gm in rest;
      var w := 0;
      if gm <= budget {
        w := WeightOf(l, gm, free, budget);
      }
      SeenStep(l, done, free, budget, budget, gm, w);
      n := n + w;
      rest := rest - {gm};
      done := done + {gm};
    }
    assert done == l.Keys;
    SeenAll(l, free, budget, budget);
  }

  /** What the scan of the global distribution has computed once it has
      seen the keys in done. */
  ghost predicate Scanned(g: Dist, free: int, budget: nat, done: set<nat>,
                          den: nat, na: nat, minMines: Option<nat>, maxMines: nat, skip: nat)
  {
    && den == Sum(0, budget + 1, m => Seen(g, done, free, budget, m))
    && na == Sum(0, budget + 1, m => Seen(g, done, free - 1, budget - 1, m))
    && minMines == (if done == {} then None else Some(MinOf(done)))
    && maxMines == MaxOf({0} + set k | k in done && k <= budget)
    && skip == |set k | k in done && k > budget|
  }

  /** The scan of the global distribution: the denominator and the free
      numerator over the keys within the budget, the least key of all
      (None standing for `Infinity`), the greatest key within the budget (or
      0), and the number of keys skipped for exceeding the budget. */
  method ScanGlobal(g: Dist, free: int, budget: nat)
    returns (den: nat, na: nat, minMines: Option<nat>, maxMines: nat, skip: nat)
    ensures den == Weighted(g, free, budget, budget)
    ensures na == Weighted(g, free - 1, budget - 1, budget)
    ensures minMines == if g == map[] then None else Some(MinKey(g))
    ensures maxMines == MaxUpTo(g, budget)
    ensures skip == |Above(g, budget)|
  {
    den, na, minMines, maxMines, skip := 0, 0, None, 0, 0;
    var rest := g.Keys;
    ghost var done: set<nat> := {};
    ScanStart(g, free, budget);
    while rest != {}
      invariant done + rest == g.Keys && done !! rest
      invariant Scanned(g, free, budget, done, den, na, minMines, maxMines, skip)
    {
      var gm :| gm in rest;
      den, na, minMines, maxMines, skip := ScanKey(g, free, budget, done, gm, den, na, minMines, maxMines, skip);
      rest := rest - {gm};
      done := done + {gm};
    }
    ScanEnd(g, free, budget, done, den, na, minMines, maxMines, skip);
  }

  lemma ScanStart(g: Dist, free: int, budget: nat)
    ensures Scanned(g, free, budget, {}, 0, 0, None, 0, 0)
  {
    SeenNone(g, free, budget, budget);
    SeenNone(g, free - 1, budget - 1, budget);
    var none: set<nat> := {};
    assert {0} + (set k | k in none && k <= budget) == {0};
    assert (set k | k in none && k > budget) == {};
  }

  lemma ScanEnd(g: Dist, free: int, budget: nat, done: set<nat>,
                den: nat, na: nat, minMines: Option<nat>, maxMines: nat, skip: nat)
    requires done == g.Keys
    requires Scanned(g, free, budget, done, den, na, minMines, maxMines, skip)
    ensures den == Weighted(g, free, budget, budget)
    ensures na == Weighted(g, free - 1, budget - 1, budget)
    ensures minMines == if g == map[] then None else Some(MinKey(g))
    ensures maxMines == MaxUpTo(g, budget)
    ensures skip == |Above(g, budget)|
  {
    SeenAll(g, free, budget, budget);
    SeenAll(g, free - 1, budget - 1, budget);
    assert (set k | k in done && k > budget) == Above(g, budget);
    assert (set k | k in done && k <= budget) == (set k | k in g && k <= budget);
  }

  /** The body of the scan for one key gm. */
  method ScanKey(g: Dist, free: int, budget: nat, ghost done: set<nat>, gm: nat,
                 den: nat, na: nat, minMines: Option<nat>, maxMines: nat, skip: nat)
    returns (den': nat, na': nat, minMines': Option<nat>, maxMines': nat, skip': nat)
    requires gm in g && gm !in done
    requires Scanned(g, free, budget, done, den, na, minMines, maxMines, skip)
    ensures Scanned(g, free, budget, done + {gm}, den', na', minMines', maxMines', skip')
  {
    minMines' := ScanMin(minMines, done, gm);
    var w, v := 0, 0;
    maxMines', skip' := maxMines, skip;
    if gm > budget {
      SkipStep(done, gm, budget);
      MaxSkip(done, gm, budget);
      skip' := skip + 1;
    } else {
      SkipKeep(done, gm, budget);
      w := WeightOf(g, gm, free, budget);
      v := WeightOf(g, gm, free - 1, budget - 1);
      maxMines' := ScanMax(maxMines, done, gm, budget);
    }
    SeenStep(g, done, free, budget, budget, gm, w);
    SeenStep(g, done, free - 1, budget - 1, budget, gm, v);
    den' := den + w;
    na' := na + v;
  }

  lemma MaxSkip(done: set<nat>, gm: nat, budget: nat)
    requires gm > budget
    ensures (set k | k in done + {gm} && k <= budget) == (set k | k in done && k <= budget)
  {
  }

  lemma SkipKeep(done: set<nat>, gm: nat, budget: nat)
    requires gm <= budget
    ensures (set k | k in done + {gm} && k > budget) == (set k | k in done && k > budget)
  {
  }

  /** `min_gm = Math.min(min_gm, gm)`. */
  method ScanMin(minMines: Option<nat>, ghost done: set<nat>, gm: nat) returns (r: Option<nat>)
    requires gm !in done
    requires minMines == if done == {} then None else Some(MinOf(done))
    ensures r == Some(MinOf(done + {gm}))
  {
    if minMines.None? || gm < minMines.value {
      r := Some(gm);
    } else {
      r := minMines;
    }
    MinUnique(done + {gm}, r.value);
  }

  /** `max_gm = Math.max(max_gm, gm)` for a key within the budget. */
  method ScanMax(maxMines: nat, ghost done: set<nat>, gm: nat, budget: nat) returns (r: nat)
    requires gm <= budget
    requires maxMines == MaxOf({0} + set k | k in done && k <= budget)
    ensures r == MaxOf({0} + set k | k in done + {gm} && k <= budget)
  {
    ghost var s := {0} + set k | k in done && k <= budget;
    assert ({0} + set k | k in done + {gm} && k <= budget) == s + {gm};
    r := if gm > maxMines then gm else maxMines;
    MaxUnique(s + {gm}, r);
  }

  /** A skipped key adds one to the skipped set. */
  lemma SkipStep(done: set<nat>, gm: nat, budget: nat)
    requires gm !in done && gm > budget
    ensures |set k | k in done + {gm} && k > budget| == |set k | k in done && k > budget| + 1
  {
    assert (set k | k in done + {gm} && k > budget) == (set k | k in done && k > budget) + {gm};
  }

  lemma MinUnique(s: set<nat>, x: nat)
    requires x in s && forall j :: j in s ==> x <= j
    ensures MinOf(s) == x
  {
  }

  lemma MaxUnique(s: set<nat>, x: nat)
    requires x in s && forall j :: j in s ==> j <= x
    ensures MaxOf(s) == x
  {
  }

  /** A subset as large as its superset is the superset. */
  lemma {:induction false} SubsetCard(a: set<nat>, b: set<nat>)
    requires a <= b
    ensures |a| <= |b|
    ensures |a| == |b| ==> a == b
    decreases |a|
  {
    if a != {} {
      var x :| x in a;
      SubsetCard(a - {x}, b - {x});
      assert |a - {x}| == |a| - 1;
      assert |b - {x}| == |b| - 1;
      if |a| == |b| {
        assert a - {x} == b - {x};
        assert a == (a - {x}) + {x};
        assert b == (b - {x}) + {x};
      }
    } else if |a| == |b| {
      assert |b| == 0;
    }
  }

  /** The "too little mines" test as the source writes it, with the counter:
      the map is non-empty and every one of its keys was skipped. */
  lemma AllSkipped(g: Dist, budget: int)
    ensures (|g| != 0 && |g| == |Above(g, budget)|) <==>
      (g != map[] && forall k :: k in g ==> k > budget)
  {
    assert |g| == |g.Keys|;
    SubsetCard(Above(g, budget), g.Keys);
    if g != map[] && forall k :: k in g ==> k > budget {
      assert Above(g, budget) == g.Keys;
    }
    if |g| != 0 && |g| == |Above(g, budget)| {
      assert g.Keys != {};
    }
  }
}
