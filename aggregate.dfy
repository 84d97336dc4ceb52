/** The list of mine frequency graphs of one calculation (`MFGList` in
    www/index.js): per subsystem a global graph and the local graphs of its
    tiles, combined by `convolve_all` into distributions over the whole board. */
module Aggregate {
  import opened Wrappers
  import opened Distribution
  import opened Probability

  /** The product of all distributions, multiplied from the left. */
  function Product(s: seq<Dist>): Dist
  {
    if |s| == 0 then Unit() else Conv(Product(s[..|s| - 1]), s[|s| - 1])
  }

  /** What `convolve_all` makes of a graph d of subsystem i after the first n
      rounds of its inner loop: d multiplied by every s[j], j < n, j != i, in
      that order. */
  function FoldOthers(d: Dist, s: seq<Dist>, i: int, n: nat): Dist
    requires n <= |s|
  {
    if n == 0 then d
    else if n - 1 == i then FoldOthers(d, s, i, n - 1)
    else Conv(FoldOthers(d, s, i, n - 1), s[n - 1])
  }

  /** The product of every distribution except s[i]. */
  function ProductOthers(s: seq<Dist>, i: int): Dist
  {
    FoldOthers(Unit(), s, i, |s|)
  }

  /** Folding from d is multiplying d by the fold from the unit. */
  lemma {:induction false} FoldFactor(d: Dist, s: seq<Dist>, i: int, n: nat)
    requires n <= |s|
    ensures FoldOthers(d, s, i, n) == Conv(d, FoldOthers(Unit(), s, i, n))
  {
    if n == 0 {
      ConvUnitRight(d);
    } else if n - 1 == i {
      FoldFactor(d, s, i, n - 1);
    } else {
      FoldFactor(d, s, i, n - 1);
      ConvAssociates(d, FoldOthers(Unit(), s, i, n - 1), s[n - 1]);
    }
  }

  /** The product of a prefix one longer multiplies in the next element. */
  lemma ProductPrefix(s: seq<Dist>, n: nat)
    requires 0 < n <= |s|
    ensures Product(s[..n]) == Conv(Product(s[..n - 1]), s[n - 1])
  {
    assert s[..n][..n - 1] == s[..n - 1];
  }

  /** Before the skipped index the fold is the product of the prefix. */
  lemma {:induction false} FoldBefore(s: seq<Dist>, i: int, n: nat)
    requires n <= |s| && n <= i
    ensures FoldOthers(Unit(), s, i, n) == Product(s[..n])
  {
    if n > 0 {
      FoldBefore(s, i, n - 1);
      ProductPrefix(s, n);
    }
  }

  /** Past the skipped index, putting s[i] back gives the product of the prefix. */
  lemma {:induction false} FoldAfter(s: seq<Dist>, i: nat, n: nat)
    requires i < n <= |s|
    ensures Conv(s[i], FoldOthers(Unit(), s, i, n)) == Product(s[..n])
  {
    ProductPrefix(s, n);
    if n == i + 1 {
      FoldBefore(s, i, i);
      ConvCommutes(s[i], Product(s[..i]));
    } else {
      var before := FoldOthers(Unit(), s, i, n - 1);
      FoldAfter(s, i, n - 1);
      assert FoldOthers(Unit(), s, i, n) == Conv(before, s[n - 1]);
      ConvAssociates(s[i], before, s[n - 1]);
    }
  }

  /** After `convolve_all` every global graph holds the product of all the
      subsystems' distributions, whichever subsystem it started from. */
  lemma GlobalBecomesProduct(s: seq<Dist>, i: nat)
    requires i < |s|
    ensures FoldOthers(s[i], s, i, |s|) == Product(s)
  {
    FoldFactor(s[i], s, i, |s|);
    FoldAfter(s, i, |s|);
    assert s[..|s|] == s;
  }

  /** After `convolve_all` a local graph of subsystem i holds its own
      distribution times the product of the other subsystems. */
  lemma LocalBecomesProduct(d: Dist, s: seq<Dist>, i: nat)
    requires i < |s|
    ensures FoldOthers(d, s, i, |s|) == Conv(d, ProductOthers(s, i))
  {
    FoldFactor(d, s, i, |s|);
  }

  /** A local graph below its subsystem's global graph (the solutions with the
      tile as a mine are among all solutions) stays below the global product. */
  lemma LocalBelowProduct(d: Dist, s: seq<Dist>, i: nat)
    requires i < |s| && Below(d, s[i])
    ensures Below(FoldOthers(d, s, i, |s|), FoldOthers(s[i], s, i, |s|))
  {
    LocalBecomesProduct(d, s, i);
    LocalBecomesProduct(s[i], s, i);
    ConvMonotone(d, s[i], ProductOthers(s, i));
  }

  /** `MFGList`: one global graph slot per subsystem (null until decoded, and
      left null when the subsystem failed) and the local graphs of its tiles. */
  class MfgList {
    var global: seq<MineFrequencyGraph?>
    var local: seq<seq<MineFrequencyGraph>>

    /** Both lists have one entry per subsystem, and no graph object sits in
        two slots (the decoder creates a fresh graph for every slot). */
    ghost predicate Valid()
      reads this
    {
      && |global| == |local|
      && (forall p, q :: 0 <= p < q < |global| && global[p] != null ==> global[p] != global[q])
      && (forall p, q, t :: 0 <= p < |global| && 0 <= q < |local| && 0 <= t < |local[q]| ==>
            global[p] != local[q][t])
      && (forall p, t, q, u ::
            (0 <= p < |local| && 0 <= t < |local[p]| && 0 <= q < |local| && 0 <= u < |local[q]| &&
             (p != q || t != u)) ==> local[p][t] != local[q][u])
    }

    /** The graphs of subsystem i. */
    ghost function SubsystemGraphs(i: int): set<MineFrequencyGraph>
      reads this
      requires 0 <= i < |global| && 0 <= i < |local|
    {
      (if global[i] == null then {} else {global[i]}) + LocalGraphs(i)
    }

    /** Within subsystem i no graph object sits in two slots. */
    ghost predicate SubsystemApart(i: int)
      reads this
      requires 0 <= i < |global| && 0 <= i < |local|
    {
      && (forall t :: 0 <= t < |local[i]| ==> global[i] != local[i][t])
      && (forall t, u :: 0 <= t < |local[i]| && 0 <= u < |local[i]| && t != u ==> local[i][t] != local[i][u])
    }

    /** The local graphs of subsystem i. */
    ghost function LocalGraphs(i: int): set<MineFrequencyGraph>
      reads this
      requires 0 <= i < |local|
    {
      set t | 0 <= t < |local[i]| :: local[i][t]
    }

    /** Every graph in the list. */
    ghost function Graphs(): set<MineFrequencyGraph>
      reads this
    {
      (set p | 0 <= p < |global| && global[p] != null :: global[p]) +
      (set p, t | 0 <= p < |local| && 0 <= t < |local[p]| :: local[p][t])
    }

    /** A graph not yet anywhere in the list. */
    ghost predicate Absent(mfg: MineFrequencyGraph)
      reads this
    {
      && (forall p :: 0 <= p < |global| ==> global[p] != mfg)
      && (forall p, t :: 0 <= p < |local| && 0 <= t < |local[p]| ==> local[p][t] != mfg)
    }

    /** `new MFGList(len)`: len empty global slots and len empty local lists. */
    constructor(len: nat)
      ensures Valid()
      ensures |global| == len && forall p :: 0 <= p < len ==> global[p] == null
      ensures |local| == len && forall p :: 0 <= p < len ==> local[p] == []
    {
      global := seq(len, _ => null);
      local := seq(len, _ => []);
    }

    /** `set_global`: fills the global slot of a subsystem. */
    method SetGlobal(subsystem: nat, mfg: MineFrequencyGraph)
      requires Valid() && subsystem < |global| && Absent(mfg)
      modifies this`global
      ensures Valid()
      ensures global == old(global)[subsystem := mfg]
    {
      global := global[subsystem := mfg];
    }

    /** `add_local`: appends the local graph of one more tile to a subsystem. */
    method AddLocal(subsystem: nat, mfg: MineFrequencyGraph)
      requires Valid() && subsystem < |local| && Absent(mfg)
      modifies this`local
      ensures Valid()
      ensures local == old(local)[subsystem := old(local)[subsystem] + [mfg]]
    {
      local := local[subsystem := local[subsystem] + [mfg]];
    }

    /** The `forEach` over the local graphs of subsystem i: each one is
        multiplied by d. */
    method ConvolveLocals(i: nat, d: Dist)
      requires i < |global| && i < |local| && SubsystemApart(i)
      modifies LocalGraphs(i)`frequencies
      ensures forall t :: 0 <= t < |local[i]| ==>
        local[i][t].frequencies == Conv(old(local[i][t].frequencies), d)
    {
      var t := 0;
      while t < |local[i]|
        invariant 0 <= t <= |local[i]|
        invariant forall u :: 0 <= u < t ==>
          local[i][u].frequencies == Conv(old(local[i][u].frequencies), d)
        invariant forall u :: t <= u < |local[i]| ==>
          local[i][u].frequencies == old(local[i][u].frequencies)
      {
        local[i][t].Convolve(d);
        t := t + 1;
      }
    }

    /** One round of the inner loop of `convolve_all`: the global graph of
        subsystem i and each of its local graphs are multiplied by d. */
    method ConvolveRound(i: nat, d: Dist)
      requires i < |global| && i < |local| && SubsystemApart(i) && global[i] != null
      modifies SubsystemGraphs(i)`frequencies
      ensures global[i].frequencies == Conv(old(global[i].frequencies), d)
      ensures forall t :: 0 <= t < |local[i]| ==>
        local[i][t].frequencies == Conv(old(local[i][t].frequencies), d)
    {
      global[i].Convolve(d);
      ConvolveLocals(i, d);
    }

    /** One round of the outer loop of `convolve_all`: the graphs of subsystem
        i are multiplied by every snapshot but their own. */
    method ConvolveSubsystem(i: nat, mult: seq<Dist>)
      requires i < |global| && i < |local| && SubsystemApart(i)
      requires |mult| == |global| && global[i] != null
      modifies SubsystemGraphs(i)`frequencies
      ensures global[i].frequencies == FoldOthers(old(global[i].frequencies), mult, i, |mult|)
      ensures forall t :: 0 <= t < |local[i]| ==>
        local[i][t].frequencies == FoldOthers(old(local[i][t].frequencies), mult, i, |mult|)
    {
      var j := 0;
      while j < |mult|
        invariant 0 <= j <= |mult|
        invariant global[i].frequencies == FoldOthers(old(global[i].frequencies), mult, i, j)
        invariant forall t :: 0 <= t < |local[i]| ==>
          local[i][t].frequencies == FoldOthers(old(local[i][t].frequencies), mult, i, j)
      {
        if i != j {
          ConvolveRound(i, mult[j]);
        }
        j := j + 1;
      }
    }

    /** The first loop of `convolve_all`: stops at the first subsystem with
        no global graph, and otherwise copies every global distribution. */
    method Snapshot() returns (ok: bool, mult: seq<Dist>)
      requires Valid()
      ensures ok <==> forall p :: 0 <= p < |global| ==> global[p] != null
      ensures ok ==> |mult| == |global|
      ensures ok ==> forall p :: 0 <= p < |global| ==> mult[p] == global[p].frequencies
    {
      mult := [];
      var i := 0;
      while i < |global|
        invariant 0 <= i <= |global| && |mult| == i
        invariant forall p :: 0 <= p < i ==> global[p] != null && mult[p] == global[p].frequencies
      {
        if global[i] == null {
          return false, mult;
        }
        mult := mult + [global[i].frequencies];
        i := i + 1;
      }
      ok := true;
    }

    /** The graphs of the other subsystems lie outside those of subsystem i. */
    lemma Separate(i: nat)
      requires Valid() && i < |global|
      ensures forall p :: 0 <= p < |global| && p != i && global[p] != null ==>
        global[p] !in SubsystemGraphs(i)
      ensures forall p, t :: 0 <= p < |local| && p != i && 0 <= t < |local[p]| ==>
        local[p][t] !in SubsystemGraphs(i)
      ensures SubsystemApart(i)
    {
    }

    /** The second loop of `convolve_all`: the graphs of every subsystem are
        multiplied by the snapshots of all the other subsystems. */
    method ConvolveEach(mult: seq<Dist>)
      requires Valid() && |mult| == |global|
      requires forall p :: 0 <= p < |global| ==> global[p] != null
      modifies Graphs()`frequencies
      ensures forall p :: 0 <= p < |global| ==>
        global[p].frequencies == FoldOthers(old(global[p].frequencies), mult, p, |mult|)
      ensures forall p, t :: 0 <= p < |local| && 0 <= t < |local[p]| ==>
        local[p][t].frequencies == FoldOthers(old(local[p][t].frequencies), mult, p, |mult|)
    {
      var i := 0;
      while i < |global|
        invariant 0 <= i <= |global|
        invariant forall p :: 0 <= p < i ==>
          global[p].frequencies == FoldOthers(old(global[p].frequencies), mult, p, |mult|)
        invariant forall p :: i <= p < |global| ==> global[p].frequencies == old(global[p].frequencies)
        invariant forall p, t :: 0 <= p < i && 0 <= t < |local[p]| ==>
          local[p][t].frequencies == FoldOthers(old(local[p][t].frequencies), mult, p, |mult|)
        invariant forall p, t :: i <= p < |local| && 0 <= t < |local[p]| ==>
          local[p][t].frequencies == old(local[p][t].frequencies)
      {
        Separate(i);
        ConvolveSubsystem(i, mult);
        i := i + 1;
      }
    }

    /** `convolve_all`: false, with nothing changed, when some subsystem has
        no global graph; otherwise every global graph becomes the product of
        the snapshots `mult` of all global graphs, and every local graph is
        multiplied by the snapshots of the other subsystems. */
    method ConvolveAll() returns (ok: bool, ghost mult: seq<Dist>)
      requires Valid()
      modifies Graphs()`frequencies
      ensures ok <==> forall p :: 0 <= p < |global| ==> global[p] != null
      ensures !ok ==> forall g :: g in Graphs() ==> g.frequencies == old(g.frequencies)
      ensures ok ==> |mult| == |global|
      ensures ok ==> forall p :: 0 <= p < |global| ==> mult[p] == old(global[p].frequencies)
      ensures ok ==> forall p :: 0 <= p < |global| ==> global[p].frequencies == Product(mult)
      ensures ok ==> forall p, t :: 0 <= p < |local| && 0 <= t < |local[p]| ==>
        local[p][t].frequencies == Conv(old(local[p][t].frequencies), ProductOthers(mult, p))
    {
      var globalMult;
      ok, globalMult := Snapshot();
      mult := globalMult;
      if !ok {
        return;
      }
      ConvolveEach(globalMult);
      forall p | 0 <= p < |global|
        ensures global[p].frequencies == Product(mult)
      {
        GlobalBecomesProduct(mult, p);
      }
      forall p, t | 0 <= p < |local| && 0 <= t < |local[p]|
        ensures local[p][t].frequencies == Conv(old(local[p][t].frequencies), ProductOthers(mult, p))
      {
        LocalBecomesProduct(old(local[p][t].frequencies), mult, p);
      }
    }

    /** The global distribution `gm_probability` reads: that of subsystem 0,
        or None when there are no subsystems. */
    ghost function GlobalDist(): Option<Dist>
      reads this, Graphs()
    {
      if |global| == 0 || global[0] == null then None else Some(global[0].frequencies)
    }

    /** The local graphs as `gm_probability` reads them. */
    ghost function LocalTiles(): seq<seq<LocalTile>>
      reads this, Graphs()
    {
      seq(|local|, p requires 0 <= p < |local| reads this, Graphs() => LocalRow(p))
    }

    /** The local graphs of subsystem p as `gm_probability` reads them. */
    ghost function LocalRow(p: nat): seq<LocalTile>
      requires p < |local|
      reads this, Graphs()
    {
      var row := local[p];
      seq(|row|, t requires 0 <= t < |row| reads set g | g in row => TileOf(row[t]))
    }

    static ghost function TileOf(mfg: MineFrequencyGraph): LocalTile
      reads mfg
    {
      LocalTile(mfg.x, mfg.y, mfg.frequencies)
    }

    /** The number of tiles with a local graph (`adjacent_tiles`). */
    method CountAdjacent() returns (adjacent: nat)
      ensures adjacent == TotalLength(local)
    {
      adjacent := 0;
      var p := 0;
      while p < |local|
        invariant 0 <= p <= |local|
        invariant adjacent == TotalLength(local[..p])
      {
        assert local[..p + 1][..p] == local[..p];
        adjacent := adjacent + |local[p]|;
        p := p + 1;
      }
      assert local[..p] == local;
    }

    /** The probabilities of the local tiles of subsystem p. */
    method ShareRow(p: nat, free: int, budget: nat, den: nat) returns (row: seq<TileShare>)
      requires p < |local|
      ensures |row| == |local[p]|
      ensures forall t :: 0 <= t < |row| ==> row[t] == ShareOf(TileOf(local[p][t]), free, budget, den)
    {
      row := [];
      var t := 0;
      while t < |local[p]|
        invariant 0 <= t <= |local[p]| && |row| == t
        invariant forall u :: 0 <= u < t ==> row[u] == ShareOf(TileOf(local[p][u]), free, budget, den)
      {
        var mfg := local[p][t];
        var n := TileNumerator(mfg.frequencies, free, budget);
        row := row + [TileShare(mfg.x, mfg.y, n, ShadeOf(n, den))];
        t := t + 1;
      }
    }

    /** The `forEach` over the local graphs: the numerator and shading of
        every tile next to the numbers. */
    method ShareAll(free: int, budget: nat, den: nat) returns (rows: seq<seq<TileShare>>)
      ensures rows == Shares(LocalTiles(), free, budget, den)
    {
      rows := [];
      var p := 0;
      while p < |local|
        invariant 0 <= p <= |local| && |rows| == p
        invariant forall q :: 0 <= q < p ==> |rows[q]| == |local[q]|
        invariant forall q, t :: 0 <= q < p && 0 <= t < |rows[q]| ==>
          rows[q][t] == ShareOf(TileOf(local[q][t]), free, budget, den)
      {
        var row := ShareRow(p, free, budget, den);
        rows := rows + [row];
        p := p + 1;
      }
      ghost var spec := Shares(LocalTiles(), free, budget, den);
      assert |rows| == |spec|;
      forall q | 0 <= q < |rows|
        ensures rows[q] == spec[q]
      {
        assert |rows[q]| == |spec[q]|;
        forall t | 0 <= t < |rows[q]|
          ensures rows[q][t] == spec[q][t]
        {
          assert LocalTiles()[q][t] == TileOf(local[q][t]);
        }
      }
    }

    /** `gm_probability`, on the board's tile kinds, the flag option and the
        mine count typed in: the outcome the global probability spec gives
        for the converged graphs. */
    method GmProbability(board: seq<MsType>, includeFlags: bool, count: int) returns (r: Outcome)
      requires |global| != 0 ==> global[0] != null
      ensures r == GlobalProbability(GlobalDist(), LocalTiles(), board, includeFlags, count)
    {
      label start:
      ghost var spec, g0 := LocalTiles(), GlobalDist();
      var adjacent := CountAdjacent();
      TotalLengthShape(local, spec);
      var unknown, placed := CountTiles(board, includeFlags);
      var budget := count - placed;
      if budget < 0 {
        NegativeCase(g0, spec, board, includeFlags, count, placed, budget);
        return NegativeBudget(budget, placed);
      }
      var free := unknown as int - adjacent;
      var den, na := 0, 0;
      if |global| != 0 {
        var d := global[0].frequencies;
        var minMines, maxMines, skip;
        den, na, minMines, maxMines, skip := ScanGlobal(d, free, budget);
        assert unchanged@start(this) && unchanged@start(Graphs());
        assert spec == LocalTiles() && GlobalDist() == g0 == Some(d);
        AllSkipped(d, budget);
        if |d| != 0 && |d| == skip {
          TooFewCase(d, spec, board, includeFlags, count, placed, budget);
          return TooFewMines(budget, placed, minMines.value);
        }
        if den == 0 {
          TooManyCase(d, spec, board, includeFlags, count, placed, budget, free);
          return TooManyMines(budget, placed, maxMines, free);
        }
        ShownCase(d, spec, board, includeFlags, count, placed, budget, free, den, na);
      } else {
        NoRegionsCase(spec, board, includeFlags, count, placed, budget, free);
      }
      var tiles := ShareAll(free, budget, den);
      assert unchanged@start(this) && unchanged@start(Graphs());
      assert spec == LocalTiles() && GlobalDist() == g0;
      if |global| == 0 {
        if budget > free {
          return TooManyNoRegions(budget, placed, free);
        }
        den, na := free, budget;
      }
      r := Shown(tiles, den, na, free, ShadeOf(na, den));
    }
  }
}
