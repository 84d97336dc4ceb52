/** `parse_probability_list` in www/index.js: the solver's answer, one record
    per independent subsystem, decoded into a fresh `MFGList` (a local graph
    per tile and a global graph per solved subsystem), convolved, and handed
    to `gm_probability` when the board shows global probabilities. The
    solver's answer is taken as values; how it is laid out in memory is not
    part of this model. */
module Regions {
  import opened Wrappers
  import opened Distribution
  import opened Probability
  import opened Aggregate

  /** f solutions with m mines next to the numbers (`MineFrequency`). */
  datatype MineFrequency = MineFrequency(m: nat, f: nat)

  /** A tile next to the numbers (`LocationCount`): the number of solutions
      in which it holds a mine, and its mine-frequency list. */
  datatype LocationCount = LocationCount(x: nat, y: nat, count: nat, mf: seq<MineFrequency>)

  /** A tile of a subsystem the solver could not solve (`TileLocation`). */
  datatype TileLocation = TileLocation(x: nat, y: nat)

  /** One subsystem (`Calculate`): solved, with its total number of
      solutions, its tiles and its own mine-frequency list; or failed, with
      the status code and the tiles the failure concerns. */
  datatype Region =
    | Solved(total: nat, locations: seq<LocationCount>, mf: seq<MineFrequency>)
    | Failed(status: nat, tiles: seq<TileLocation>)

  /** The whole answer (`CalculateArray`): an error status, or the
      subsystems and whether the solver recalculated them. */
  datatype Calculation =
    | CalculationError(status: nat)
    | Calculated(recalculated: bool, regions: seq<Region>)

  /** The choice of the probability selector. */
  datatype ProbabilityMode = Global | Local | Percentage

  /** A tile marked `Err!` with the status of its failed subsystem. */
  datatype TileError = TileError(x: nat, y: nat, status: nat)

  /** What `parse_probability_list` shows: the error message of a failed
      calculation, or per subsystem the local probabilities (count over
      total solutions, only outside the Global mode) and the error tiles,
      whether the graphs converged, the whole-system distribution summarised
      in the results pane, and the outcome of `gm_probability`. */
  datatype Report =
    | NotCalculated(status: nat)
    | Decoded(local: seq<seq<TileShare>>, errors: seq<seq<TileError>>, convolved: bool,
              summary: Option<Dist>, global: Option<Outcome>)

  // ---------------------------------------------------------------------
  // Mine-frequency lists

  /** The graph the `assign_mf` calls leave after d, one call per entry in
      order. */
  function Assigned(d: Dist, mf: seq<MineFrequency>): Dist
  {
    if |mf| == 0 then d else Assigned(d, mf[..|mf| - 1])[mf[|mf| - 1].m := mf[|mf| - 1].f]
  }

  /** The graph decoded from a mine-frequency list. */
  function DistOf(mf: seq<MineFrequency>): Dist
  {
    Assigned(map[], mf)
  }

  /** The mine counts of the graph are those the list mentions. */
  lemma {:induction false} DistOfKeys(mf: seq<MineFrequency>)
    ensures DistOf(mf).Keys == set e | e in mf :: e.m
  {
    if |mf| > 0 {
      var init := mf[..|mf| - 1];
      DistOfKeys(init);
      assert mf == init + [mf[|mf| - 1]];
      assert (set e | e in mf :: e.m) == (set e | e in init :: e.m) + {mf[|mf| - 1].m};
    }
  }

  /** For each mine count the last entry that mentions it wins. */
  lemma {:induction false} LastWins(mf: seq<MineFrequency>, i: nat)
    requires i < |mf|
    requires forall j :: i < j < |mf| ==> mf[j].m != mf[i].m
    ensures mf[i].m in DistOf(mf) && DistOf(mf)[mf[i].m] == mf[i].f
  {
    if i < |mf| - 1 {
      LastWins(mf[..|mf| - 1], i);
    }
  }

  /** A list without repeated mine counts becomes a graph entry by entry. */
  lemma DistinctList(mf: seq<MineFrequency>)
    requires forall i, j :: 0 <= i < j < |mf| ==> mf[i].m != mf[j].m
    ensures forall i :: 0 <= i < |mf| ==> Coef(DistOf(mf), mf[i].m) == mf[i].f
    ensures forall m :: (forall i :: 0 <= i < |mf| ==> mf[i].m != m) ==> Coef(DistOf(mf), m) == 0
  {
    forall i | 0 <= i < |mf|
      ensures Coef(DistOf(mf), mf[i].m) == mf[i].f
    {
      LastWins(mf, i);
    }
    DistOfKeys(mf);
  }

  // ---------------------------------------------------------------------
  // What the decoder builds

  /** Every subsystem was solved. */
  predicate AllSolved(regions: seq<Region>)
  {
    forall i :: 0 <= i < |regions| ==> regions[i].Solved?
  }

  /** The global graph of each subsystem, as decoded (empty when it failed). */
  function RegionDists(regions: seq<Region>): seq<Dist>
  {
    seq(|regions|, i requires 0 <= i < |regions| =>
      if regions[i].Solved? then DistOf(regions[i].mf) else map[])
  }

  /** The local graphs after `convolve_all`: each tile's decoded graph times
      the global graphs of all other subsystems. */
  function ConvolvedTiles(regions: seq<Region>): seq<seq<LocalTile>>
    requires AllSolved(regions)
  {
    seq(|regions|, i requires 0 <= i < |regions| && AllSolved(regions) => ConvolvedRow(regions, i))
  }

  /** The local graphs of subsystem i after `convolve_all`. */
  function ConvolvedRow(regions: seq<Region>, i: nat): seq<LocalTile>
    requires i < |regions| && AllSolved(regions)
  {
    var locations := regions[i].locations;
    seq(|locations|, t requires 0 <= t < |locations| =>
      LocalTile(locations[t].x, locations[t].y,
                Conv(DistOf(locations[t].mf), ProductOthers(RegionDists(regions), i))))
  }

  /** The Local and Percentage modes show count / total on each tile and
      shade it as a mine when every solution has a mine there and as clear
      when none has; the Global mode shows nothing here. */
  function LocalShares(r: Region, mode: ProbabilityMode): seq<TileShare>
  {
    if mode == Global || r.Failed? then []
    else
      seq(|r.locations|, t requires 0 <= t < |r.locations| =>
        TileShare(r.locations[t].x, r.locations[t].y, r.locations[t].count,
                  ShadeOf(r.locations[t].count, r.total)))
  }

  /** The tiles of a failed subsystem, marked with its status. */
  function ErrorTiles(r: Region): seq<TileError>
  {
    if r.Solved? then []
    else seq(|r.tiles|, t requires 0 <= t < |r.tiles| => TileError(r.tiles[t].x, r.tiles[t].y, r.status))
  }

  /** The report of a calculation whose subsystems all decoded. */
  ghost function Expected(answer: Calculation, mode: ProbabilityMode, board: seq<MsType>,
                          includeFlags: bool, count: int): Report
  {
    match answer
    case CalculationError(status) => NotCalculated(status)
    case Calculated(recalculated, regions) =>
      var local := seq(|regions|, i requires 0 <= i < |regions| => LocalShares(regions[i], mode));
      var errors := seq(|regions|, i requires 0 <= i < |regions| => ErrorTiles(regions[i]));
      if !AllSolved(regions) then Decoded(local, errors, false, None, None)
      else
        var whole := Product(RegionDists(regions));
        var summary := if recalculated && |regions| > 1 then Some(whole) else None;
        var g := if |regions| == 0 then None else Some(whole);
        var outcome :=
          if mode == Global then Some(GlobalProbability(g, ConvolvedTiles(regions), board, includeFlags, count))
          else None;
        Decoded(local, errors, true, summary, outcome)
  }

  /** A local graph decoded from its location record. */
  ghost predicate LocalFrom(mfg: MineFrequencyGraph, subsystem: nat, t: nat, loc: LocationCount)
    reads mfg
  {
    && mfg.subsystem == subsystem && mfg.id == Some(t)
    && mfg.x == loc.x && mfg.y == loc.y && mfg.frequencies == DistOf(loc.mf)
  }

  /** The graphs of subsystem i after decoding r: a solved subsystem has its
      global graph and one local graph per tile in order; a failed one has
      neither. */
  ghost predicate Holds(i: nat, g: MineFrequencyGraph?, row: seq<MineFrequencyGraph>, r: Region)
    reads g, set o | o in row
  {
    match r
    case Solved(_, locations, mf) =>
      && g != null && g.subsystem == i && g.id == None && g.frequencies == DistOf(mf)
      && |row| == |locations|
      && forall t :: 0 <= t < |row| ==> LocalFrom(row[t], i, t, locations[t])
    case Failed(_, _) => g == null && row == []
  }

  // ---------------------------------------------------------------------
  // The decoder

  /** The `assign_mf` loop over a mine-frequency list. */
  method AssignAll(mfg: MineFrequencyGraph, mf: seq<MineFrequency>)
    modifies mfg`frequencies
    ensures mfg.frequencies == Assigned(old(mfg.frequencies), mf)
  {
    var i := 0;
    while i < |mf|
      invariant 0 <= i <= |mf|
      invariant mfg.frequencies == Assigned(old(mfg.frequencies), mf[..i])
    {
      assert mf[..i + 1][..i] == mf[..i];
      mfg.AssignMf(mf[i].m, mf[i].f);
      i := i + 1;
    }
    assert mf[..i] == mf;
  }

  /** One tile of a solved subsystem: a fresh local graph with its id and
      position and its decoded distribution, appended to the subsystem. */
  method DecodeLocation(list: MfgList, i: nat, t: nat, loc: LocationCount) returns (mfg: MineFrequencyGraph)
    requires list.Valid() && i < |list.local|
    modifies list`local
    ensures list.Valid() && fresh(mfg)
    ensures LocalFrom(mfg, i, t, loc)
    ensures list.local == old(list.local)[i := old(list.local)[i] + [mfg]]
  {
    mfg := new MineFrequencyGraph(i);
    mfg.AssignId(t, loc.x, loc.y);
    AssignAll(mfg, loc.mf);
    list.AddLocal(i, mfg);
  }

  /** The global graph of a solved subsystem. */
  method DecodeGlobal(list: MfgList, i: nat, mf: seq<MineFrequency>) returns (mfg: MineFrequencyGraph)
    requires list.Valid() && i < |list.global|
    modifies list`global
    ensures list.Valid() && fresh(mfg)
    ensures mfg.subsystem == i && mfg.id == None && mfg.frequencies == DistOf(mf)
    ensures list.global == old(list.global)[i := mfg]
  {
    mfg := new MineFrequencyGraph(i);
    AssignAll(mfg, mf);
    list.SetGlobal(i, mfg);
  }

  /** One subsystem: a solved one gets its local graphs, in the order of its
      tiles, and then its global graph; a failed one only marks its tiles. */
  method DecodeRegion(list: MfgList, i: nat, r: Region, mode: ProbabilityMode)
    returns (shares: seq<TileShare>, errors: seq<TileError>)
    requires list.Valid() && i < |list.global| && list.global[i] == null && list.local[i] == []
    modifies list`global, list`local
    ensures list.Valid() && |list.global| == |old(list.global)| && |list.local| == |old(list.local)|
    ensures forall j :: 0 <= j < |list.global| && j != i ==>
      list.global[j] == old(list.global[j]) && list.local[j] == old(list.local[j])
    ensures Holds(i, list.global[i], list.local[i], r)
    ensures list.global[i] != null ==> fresh(list.global[i])
    ensures forall t :: 0 <= t < |list.local[i]| ==> fresh(list.local[i][t])
    ensures shares == LocalShares(r, mode) && errors == ErrorTiles(r)
  {
    shares, errors := [], [];
    match r
    case Failed(status, tiles) =>
      errors := ErrorTiles(r);
    case Solved(total, locations, mf) =>
      var t := 0;
      while t < |locations|
        invariant 0 <= t <= |locations|
        invariant list.Valid() && |list.global| == |old(list.global)| && |list.local| == |old(list.local)|
        invariant list.global == old(list.global)
        invariant forall j :: 0 <= j < |list.local| && j != i ==> list.local[j] == old(list.local[j])
        invariant |list.local[i]| == t
        invariant forall u :: 0 <= u < t ==> LocalFrom(list.local[i][u], i, u, locations[u])
        invariant forall u :: 0 <= u < t ==> fresh(list.local[i][u])
        invariant shares == (if mode == Global then [] else LocalShares(r, mode)[..t])
      {
        var mfg := DecodeLocation(list, i, t, locations[t]);
        if mode != Global {
          shares := shares + [TileShare(locations[t].x, locations[t].y, locations[t].count,
                                        ShadeOf(locations[t].count, total))];
        }
        t := t + 1;
      }
      var g := DecodeGlobal(list, i, mf);
      if mode != Global {
        assert LocalShares(r, mode)[..t] == LocalShares(r, mode);
      }
  }

  /** The decoding loop of `parse_probability_list`: a fresh list with every
      subsystem decoded in order. */
  method DecodeAll(regions: seq<Region>, mode: ProbabilityMode)
    returns (list: MfgList, local: seq<seq<TileShare>>, errors: seq<seq<TileError>>)
    ensures fresh(list) && list.Valid() && |list.global| == |regions|
    ensures forall j :: 0 <= j < |regions| ==> Holds(j, list.global[j], list.local[j], regions[j])
    ensures fresh(list.Graphs())
    ensures local == seq(|regions|, j requires 0 <= j < |regions| => LocalShares(regions[j], mode))
    ensures errors == seq(|regions|, j requires 0 <= j < |regions| => ErrorTiles(regions[j]))
  {
    list := new MfgList(|regions|);
    local, errors := [], [];
    var i := 0;
    while i < |regions|
      invariant 0 <= i <= |regions|
      invariant fresh(list) && list.Valid() && |list.global| == |regions|
      invariant forall j :: 0 <= j < i ==>
        && Holds(j, list.global[j], list.local[j], regions[j])
        && (list.global[j] != null ==> fresh(list.global[j]))
        && (forall t :: 0 <= t < |list.local[j]| ==> fresh(list.local[j][t]))
      invariant forall j :: i <= j < |regions| ==> list.global[j] == null && list.local[j] == []
      invariant local == seq(i, j requires 0 <= j < i => LocalShares(regions[j], mode))
      invariant errors == seq(i, j requires 0 <= j < i => ErrorTiles(regions[j]))
    {
      var shares, marked := DecodeRegion(list, i, regions[i], mode);
      local, errors := local + [shares], errors + [marked];
      i := i + 1;
    }
  }

  /** `convolve_all` on a decoded list: it goes ahead exactly when every
      subsystem was solved, and then leaves every global graph equal to the
      product of the decoded ones and every local graph multiplied by the
      other subsystems; otherwise it changes nothing. */
  method Converge(list: MfgList, regions: seq<Region>) returns (ok: bool)
    requires list.Valid() && |list.global| == |regions|
    requires forall j :: 0 <= j < |regions| ==> Holds(j, list.global[j], list.local[j], regions[j])
    modifies list.Graphs()`frequencies
    ensures ok <==> AllSolved(regions)
    ensures !ok ==> forall j :: 0 <= j < |regions| ==> Holds(j, list.global[j], list.local[j], regions[j])
    ensures ok ==> forall i :: 0 <= i < |regions| ==>
      list.global[i] != null && list.global[i].frequencies == Product(RegionDists(regions))
    ensures ok ==> list.LocalTiles() == ConvolvedTiles(regions)
  {
    label decoded:
    ghost var mult;
    ok, mult := list.ConvolveAll();
    if !ok {
      forall j | 0 <= j < |regions|
        ensures Holds(j, list.global[j], list.local[j], regions[j])
      {
        assert old@decoded(Holds(j, list.global[j], list.local[j], regions[j]));
        if list.global[j] != null {
          assert list.global[j] in list.Graphs();
        }
        forall t | 0 <= t < |list.local[j]|
          ensures list.local[j][t] in list.Graphs()
        {
        }
      }
      return;
    }
    assert AllSolved(regions);
    assert mult == RegionDists(regions);
    forall p | 0 <= p < |regions|
      ensures list.LocalTiles()[p] == ConvolvedTiles(regions)[p]
    {
      assert |list.LocalTiles()[p]| == |ConvolvedTiles(regions)[p]|;
      forall t | 0 <= t < |list.local[p]|
        ensures list.LocalTiles()[p][t] == ConvolvedTiles(regions)[p][t]
      {
      }
    }
  }

  /** `parse_probability_list`: decodes every subsystem into a fresh list,
      convolves the graphs when every subsystem was solved, and runs
      `gm_probability` in the Global mode. A failed calculation leaves no
      list (the page keeps the previous one). */
  method ParseProbabilityList(answer: Calculation, mode: ProbabilityMode, board: seq<MsType>,
                              includeFlags: bool, count: int)
    returns (list: MfgList?, report: Report)
    ensures answer.CalculationError? ==> list == null
    ensures answer.Calculated? ==>
      && list != null && fresh(list) && list.Valid() && |list.global| == |answer.regions|
      && (!AllSolved(answer.regions) ==>
            forall i :: 0 <= i < |answer.regions| ==>
              Holds(i, list.global[i], list.local[i], answer.regions[i]))
      && (AllSolved(answer.regions) ==>
            && (forall i :: 0 <= i < |answer.regions| ==>
                  list.global[i] != null && list.global[i].frequencies == Product(RegionDists(answer.regions)))
            && list.LocalTiles() == ConvolvedTiles(answer.regions))
    ensures report == Expected(answer, mode, board, includeFlags, count)
  {
    if answer.CalculationError? {
      return null, NotCalculated(answer.status);
    }
    var regions := answer.regions;
    var local, errors;
    list, local, errors := DecodeAll(regions, mode);
    var ok := Converge(list, regions);
    if !ok {
      return list, Decoded(local, errors, false, None, None);
    }
    var summary := None;
    if |list.global| != 0 && answer.recalculated && |list.global| != 1 {
      summary := Some(list.global[0].frequencies);
    }
    var outcome := None;
    if mode == Global {
      label converged:
      var r := list.GmProbability(board, includeFlags, count);
      assert unchanged@converged(list) && unchanged@converged(list.Graphs());
      outcome := Some(r);
    }
    report := Decoded(local, errors, true, summary, outcome);
  }
}
