/** The collision simulation: an ordered list of bunches, the pair grids of the first
    two bunches and the time integrals of those grids. */
module Simulation {
  import opened Sums
  import opened Histograms
  import opened Bunches
  import opened Pairs

  /** Default binning of `set_bins`: 60 bins on [-2, 2] mm in x and y, 60 bins on
      [-200, 200] mm in z. */
  const DefaultX: Axis := Axis(60, -2.0, 2.0)
  const DefaultY: Axis := Axis(60, -2.0, 2.0)
  const DefaultZ: Axis := Axis(60, -200.0, 200.0)

  /** The pairs counted along z of two bunches binned on the same axes never exceed the
      bin total of either bunch. */
  lemma BinnedPairsBounded(ax: Axis, ay: Axis, az: Axis, p0: seq<Vec3>, p1: seq<Vec3>)
    requires ax.Valid() && ay.Valid() && az.Valid()
    ensures PairsZ(PairCount(Binning(ax, ay, az, p0), Binning(ax, ay, az, p1)), ax.n, ay.n, az).PartialSum(az.n + 1)
            <= Min(Binning(ax, ay, az, p0).Total(), Binning(ax, ay, az, p1).Total())
  {
    PairsZBounded(Binning(ax, ay, az, p0), Binning(ax, ay, az, p1));
  }

  /** With both bunches binned on the pair grids' own axes, the pairs counted along z
      never exceed the particles of either bunch. */
  lemma PairsAtMostParticles(ax: Axis, ay: Axis, az: Axis, p0: seq<Vec3>, p1: seq<Vec3>)
    requires ax.Valid() && ay.Valid() && az.Valid()
    ensures PairsZ(PairCount(Binning(ax, ay, az, p0), Binning(ax, ay, az, p1)), ax.n, ay.n, az).PartialSum(az.n + 1)
            <= Min(|p0|, |p1|)
  {
    BinnedPairsBounded(ax, ay, az, p0, p1);
    BinningTotal(ax, ay, az, p0);
    BinningTotal(ax, ay, az, p1);
  }

  /** No bunch appears twice in the list. */
  predicate Distinct(bs: seq<Bunch>)
  {
    forall i, j :: 0 <= i < j < |bs| ==> bs[i] != bs[j]
  }

  /** In a list without repeats, the bunch at `i` is none of the others. */
  lemma DistinctAt(bs: seq<Bunch>, i: nat)
    requires Distinct(bs) && i < |bs|
    ensures forall k :: 0 <= k < |bs| && k != i ==> bs[k] != bs[i]
  {
  }

  /** Appending a bunch not yet in the list keeps the list without repeats. */
  lemma DistinctAppend(bs: seq<Bunch>, b: Bunch)
    requires Distinct(bs) && b !in bs
    ensures Distinct(bs + [b])
  {
    var cs := bs + [b];
    forall i, j | 0 <= i < j < |cs|
      ensures cs[i] != cs[j]
    {
      if j < |bs| {
        assert cs[i] == bs[i] && cs[j] == bs[j];
      } else {
        assert cs[i] == bs[i] && cs[j] == b;
      }
    }
  }

  /** The states of the bunches, in list order. */
  function StatesOf(bs: seq<Bunch>): (r: seq<BunchState>)
    reads bs
    ensures |r| == |bs|
  {
    seq(|bs|, k requires 0 <= k < |bs| reads bs => bs[k].State())
  }

  /** Every bunch histogram has valid axes and matching cells. */
  predicate AllValid(ss: seq<BunchState>)
  {
    forall k :: 0 <= k < |ss| ==> ss[k].hxyz.Valid()
  }

  /** Every bunch holds the binning of its own points. */
  predicate AllBinned(ss: seq<BunchState>)
  {
    forall k :: 0 <= k < |ss| ==> ss[k].Binned()
  }

  /** Every bunch moved by `dt` with its own velocity and direction. */
  function MovedAll(ss: seq<BunchState>, dt: real): (r: seq<BunchState>)
    requires AllValid(ss)
    ensures |r| == |ss| && AllValid(r) && AllBinned(r)
  {
    seq(|ss|, k requires 0 <= k < |ss| && AllValid(ss) => ss[k].Moved(dt))
  }

  /** Every bunch binned again on the given axes. */
  function RebinnedAll(ss: seq<BunchState>, ax: Axis, ay: Axis, az: Axis): (r: seq<BunchState>)
    requires ax.Valid() && ay.Valid() && az.Valid()
    ensures |r| == |ss| && AllValid(r) && AllBinned(r)
  {
    seq(|ss|, k requires 0 <= k < |ss| => ss[k].Rebinned(ax, ay, az))
  }

  /** Two moves of every bunch add their time steps. */
  lemma MovedAllTwice(ss: seq<BunchState>, a: real, b: real, c: real)
    requires AllValid(ss) && c == a + b
    ensures MovedAll(MovedAll(ss, a), b) == MovedAll(ss, c)
  {
    forall k | 0 <= k < |ss|
      ensures MovedAll(MovedAll(ss, a), b)[k] == MovedAll(ss, c)[k]
    {
      MovedTwice(ss[k], a, b, c);
    }
  }

  /** The time the bunches have moved by after the pre-roll of `run_evolution` to
      `tmin - dt` and `i` steps of `dt`. */
  function Elapsed(tmin: real, dt: real, i: nat): real
  {
    if i == 0 then tmin - dt else Elapsed(tmin, dt, i - 1) + dt
  }

  /** The `i` steps add up to `i * dt`. */
  lemma {:induction false} ElapsedAfter(tmin: real, dt: real, i: nat)
    ensures Elapsed(tmin, dt, i) == tmin - dt + (i as real) * dt
  {
    if i > 0 {
      ElapsedAfter(tmin, dt, i - 1);
    }
  }

  /** With `dt = (tmax - tmin) / nstep`, the last of the `nstep` steps ends at
      `tmax - dt`. */
  lemma EvolutionEnd(tmin: real, tmax: real, nstep: nat)
    requires nstep > 0
    ensures Elapsed(tmin, (tmax - tmin) / (nstep as real), nstep) == tmax - (tmax - tmin) / (nstep as real)
  {
    ElapsedAfter(tmin, (tmax - tmin) / (nstep as real), nstep);
  }

  /** Step `j = k + 1` ends one `dt` after step `k`. */
  lemma ElapsedNext(tmin: real, dt: real, k: nat, j: nat)
    requires j == k + 1
    ensures Elapsed(tmin, dt, j) == Elapsed(tmin, dt, k) + dt
  {
  }

  /** Step `j = k + 1` of `run_evolution` is step `k` followed by one move of `dt`. */
  lemma MovedAllNext(ss: seq<BunchState>, tmin: real, dt: real, k: nat, j: nat)
    requires AllValid(ss) && j == k + 1
    ensures MovedAll(MovedAll(ss, Elapsed(tmin, dt, k)), dt) == MovedAll(ss, Elapsed(tmin, dt, j))
  {
    ElapsedNext(tmin, dt, k, j);
    MovedAllTwice(ss, Elapsed(tmin, dt, k), dt, Elapsed(tmin, dt, j));
  }

  /** The pre-roll of `run_evolution` is step zero. */
  lemma MovedAllStart(ss: seq<BunchState>, tmin: real, dt: real, t0: real)
    requires AllValid(ss) && t0 == tmin - dt
    ensures MovedAll(ss, t0) == MovedAll(ss, Elapsed(tmin, dt, 0))
  {
  }

  /** After all `nstep` steps the bunches have moved by `tmax - dt`. */
  lemma MovedAllEnd(ss: seq<BunchState>, tmin: real, tmax: real, nstep: nat, dt: real, i: nat)
    requires AllValid(ss) && nstep > 0 && i == nstep && dt == (tmax - tmin) / (nstep as real)
    ensures MovedAll(ss, Elapsed(tmin, dt, i)) == MovedAll(ss, tmax - (tmax - tmin) / (nstep as real))
  {
    EvolutionEnd(tmin, tmax, nstep);
  }

  /** Every bin of `b` holds at least what the same bin of `a` holds. */
  predicate Grew(a: Hist1, b: Hist1)
  {
    |a.cells| == |b.cells| && forall c :: 0 <= c < |a.cells| ==> a.cells[c] <= b.cells[c]
  }

  lemma GrewTrans(a: Hist1, b: Hist1, c: Hist1)
    requires Grew(a, b) && Grew(b, c)
    ensures Grew(a, c)
  {
  }

  /** The innermost loop of `make_pairs`: bins `(ix, iy, 0..nz)` of both bunches add
      their smaller count to x-y bin `(ix, iy)` and to each z bin. */
  method PairLine(h0: Hist3, h1: Hist3, ax: Axis, ay: Axis, az: Axis, ix: nat, iy: nat, xy0: Hist2, z0: Hist1)
    returns (xy: Hist2, z: Hist1)
    requires ax.Valid() && ay.Valid() && az.Valid() && ix <= ax.n && iy <= ay.n
    requires xy0 == XYPartial(PairCount(h0, h1), ax, ay, az.n, ix, iy, 0)
    requires z0 == ZPartial(PairCount(h0, h1), ay.n, az, ix, iy, 0)
    ensures xy == XYPartial(PairCount(h0, h1), ax, ay, az.n, ix, iy + 1, 0)
    ensures z == ZPartial(PairCount(h0, h1), ay.n, az, ix, iy + 1, 0)
  {
    ghost var f := PairCount(h0, h1);
    xy, z := xy0, z0;
    var iz := 0;
    while iz < az.n + 1
      invariant 0 <= iz <= az.n + 1
      invariant xy == XYPartial(f, ax, ay, az.n, ix, iy, iz)
      invariant z == ZPartial(f, ay.n, az, ix, iy, iz)
    {
      var npair := Min(h0.At(ix, iy, iz), h1.At(ix, iy, iz));
      XYStep(f, ax, ay, az.n, ix, iy, iz);
      ZStep(f, ay.n, az, ix, iy, iz);
      xy := xy.Set(ix, iy, npair + xy.At(ix, iy));
      z := z.Set(iz, npair + z.At(iz));
      iz := iz + 1;
    }
    XYNextY(f, ax, ay, az.n, ix, iy);
    ZNextY(f, ay.n, az, ix, iy);
  }

  /** The middle loop of `make_pairs`: all lines of the x slice `ix`. */
  method PairSlice(h0: Hist3, h1: Hist3, ax: Axis, ay: Axis, az: Axis, ix: nat, xy0: Hist2, z0: Hist1)
    returns (xy: Hist2, z: Hist1)
    requires ax.Valid() && ay.Valid() && az.Valid() && ix <= ax.n
    requires xy0 == XYPartial(PairCount(h0, h1), ax, ay, az.n, ix, 0, 0)
    requires z0 == ZPartial(PairCount(h0, h1), ay.n, az, ix, 0, 0)
    ensures xy == XYPartial(PairCount(h0, h1), ax, ay, az.n, ix + 1, 0, 0)
    ensures z == ZPartial(PairCount(h0, h1), ay.n, az, ix + 1, 0, 0)
  {
    ghost var f := PairCount(h0, h1);
    xy, z := xy0, z0;
    var iy := 0;
    while iy < ay.n + 1
      invariant 0 <= iy <= ay.n + 1
      invariant xy == XYPartial(f, ax, ay, az.n, ix, iy, 0)
      invariant z == ZPartial(f, ay.n, az, ix, iy, 0)
    {
      xy, z := PairLine(h0, h1, ax, ay, az, ix, iy, xy, z);
      iy := iy + 1;
    }
    XYNextX(f, ax, ay, az.n, ix);
    ZNextX(f, ay.n, az, ix);
  }

  /** The loops of `make_pairs` from empty grids: every bin with indices up to `n`
      (underflow included, overflow excluded) adds the smaller of the two bunches'
      counts to the x-y grid and to the z grid. */
  method PairGrids(h0: Hist3, h1: Hist3, ax: Axis, ay: Axis, az: Axis) returns (xy: Hist2, z: Hist1)
    requires ax.Valid() && ay.Valid() && az.Valid()
    ensures xy == PairsXY(PairCount(h0, h1), ax, ay, az.n)
    ensures z == PairsZ(PairCount(h0, h1), ax.n, ay.n, az)
    ensures xy.BlockSum(ax.n + 1, ay.n + 1) == z.PartialSum(az.n + 1)
  {
    ghost var f := PairCount(h0, h1);
    xy := Zero2(ax, ay);
    z := Zero1(az);
    XYStart(f, ax, ay, az.n);
    ZStart(f, ay.n, az);
    var ix := 0;
    while ix < ax.n + 1
      invariant 0 <= ix <= ax.n + 1
      invariant xy == XYPartial(f, ax, ay, az.n, ix, 0, 0)
      invariant z == ZPartial(f, ay.n, az, ix, 0, 0)
    {
      xy, z := PairSlice(h0, h1, ax, ay, az, ix, xy, z);
      ix := ix + 1;
    }
    XYDone(f, ax, ay, az.n);
    ZDone(f, ax.n, ay.n, az);
    PairsBalanced(f, ax, ay, az);
  }

  /** One row `ix` of the x-y grid added into the x and y time integrals. */
  method IntegrateRow(h: Hist2, ix: nat, xt0: Hist1, yt0: Hist1) returns (xt: Hist1, yt: Hist1)
    requires h.Valid() && ix <= h.ax.n && |xt0.cells| == h.ax.n + 2 && |yt0.cells| == h.ay.n + 2
    ensures xt.axis == xt0.axis && |xt.cells| == |xt0.cells| && yt.axis == yt0.axis && |yt.cells| == |yt0.cells|
    ensures forall i :: 0 <= i < |xt.cells| ==>
              xt.cells[i] == xt0.cells[i] + (if i == ix then h.RowSum(ix, h.ay.n + 1) else 0)
    ensures forall j :: 0 <= j < |yt.cells| ==>
              yt.cells[j] == yt0.cells[j] + (if j <= h.ay.n then h.At(ix, j) else 0)
    ensures xt.Total() == xt0.Total() + h.RowSum(ix, h.ay.n + 1)
    ensures yt.Total() == yt0.Total() + h.RowSum(ix, h.ay.n + 1)
  {
    xt, yt := xt0, yt0;
    var iy := 0;
    while iy < h.ay.n + 1
      invariant 0 <= iy <= h.ay.n + 1
      invariant xt.axis == xt0.axis && |xt.cells| == |xt0.cells| && yt.axis == yt0.axis && |yt.cells| == |yt0.cells|
      invariant forall i :: 0 <= i < |xt.cells| ==>
                  xt.cells[i] == xt0.cells[i] + (if i == ix then h.RowSum(ix, iy) else 0)
      invariant forall j :: 0 <= j < |yt.cells| ==>
                  yt.cells[j] == yt0.cells[j] + (if j < iy then h.At(ix, j) else 0)
      invariant xt.Total() == xt0.Total() + h.RowSum(ix, iy)
      invariant yt.Total() == yt0.Total() + h.RowSum(ix, iy)
    {
      var v := h.At(ix, iy);
      AddTotal(xt, ix, v);
      AddTotal(yt, iy, v);
      xt := xt.Add(ix, v);
      yt := yt.Add(iy, v);
      iy := iy + 1;
    }
  }

  /** The x-y part of the accumulation: the row sums of `h` over bins `0..n` go into
      `xt` and its column sums into `yt`. */
  method IntegrateXY(h: Hist2, xt0: Hist1, yt0: Hist1) returns (xt: Hist1, yt: Hist1)
    requires h.Valid() && |xt0.cells| == h.ax.n + 2 && |yt0.cells| == h.ay.n + 2
    ensures xt.axis == xt0.axis && |xt.cells| == |xt0.cells| && yt.axis == yt0.axis && |yt.cells| == |yt0.cells|
    ensures forall i :: 0 <= i < |xt.cells| ==>
              xt.cells[i] == xt0.cells[i] + (if i <= h.ax.n then h.RowSum(i, h.ay.n + 1) else 0)
    ensures forall j :: 0 <= j < |yt.cells| ==>
              yt.cells[j] == yt0.cells[j] + (if j <= h.ay.n then h.ColSum(j, h.ax.n + 1) else 0)
    ensures xt.Total() == xt0.Total() + h.BlockSum(h.ax.n + 1, h.ay.n + 1)
    ensures yt.Total() == yt0.Total() + h.BlockSum(h.ax.n + 1, h.ay.n + 1)
  {
    xt, yt := xt0, yt0;
    var ix := 0;
    while ix < h.ax.n + 1
      invariant 0 <= ix <= h.ax.n + 1
      invariant xt.axis == xt0.axis && |xt.cells| == |xt0.cells| && yt.axis == yt0.axis && |yt.cells| == |yt0.cells|
      invariant forall i :: 0 <= i < |xt.cells| ==>
                  xt.cells[i] == xt0.cells[i] + (if i < ix then h.RowSum(i, h.ay.n + 1) else 0)
      invariant forall j :: 0 <= j < |yt.cells| ==>
                  yt.cells[j] == yt0.cells[j] + (if j <= h.ay.n then h.ColSum(j, ix) else 0)
      invariant xt.Total() == xt0.Total() + h.BlockSum(ix, h.ay.n + 1)
      invariant yt.Total() == yt0.Total() + h.BlockSum(ix, h.ay.n + 1)
    {
      xt, yt := IntegrateRow(h, ix, xt, yt);
      ix := ix + 1;
    }
  }

  /** The z part of the accumulation: bins `0..n` of `h` go into `zt`. */
  method IntegrateZ(h: Hist1, zt0: Hist1) returns (zt: Hist1)
    requires h.Valid() && |zt0.cells| == |h.cells|
    ensures zt.axis == zt0.axis && |zt.cells| == |zt0.cells|
    ensures forall k :: 0 <= k < |zt.cells| ==> zt.cells[k] == zt0.cells[k] + (if k <= h.axis.n then h.cells[k] else 0)
    ensures zt.Total() == zt0.Total() + h.PartialSum(h.axis.n + 1)
  {
    zt := zt0;
    var iz := 0;
    while iz < h.axis.n + 1
      invariant 0 <= iz <= h.axis.n + 1
      invariant zt.axis == zt0.axis && |zt.cells| == |zt0.cells|
      invariant forall k :: 0 <= k < |zt.cells| ==> zt.cells[k] == zt0.cells[k] + (if k < iz then h.cells[k] else 0)
      invariant zt.Total() == zt0.Total() + h.PartialSum(iz)
    {
      AddTotal(zt, iz, h.At(iz));
      zt := zt.Add(iz, h.At(iz));
      iz := iz + 1;
    }
  }

  /** The loop of `sim::move`: every bunch moves by `dt`, in list order, and is binned
      again on its own axes. */
  method MoveAll(bs: seq<Bunch>, dt: real)
    requires Distinct(bs) && AllValid(StatesOf(bs))
    modifies bs
    ensures StatesOf(bs) == MovedAll(old(StatesOf(bs)), dt)
  {
    assert forall k :: 0 <= k < |bs| ==> StatesOf(bs)[k] == bs[k].State();
    var i := 0;
    while i < |bs|
      invariant 0 <= i <= |bs|
      invariant forall k :: 0 <= k < |bs| ==> old(bs[k].State()).hxyz.Valid()
      invariant forall k :: 0 <= k < i ==> bs[k].State() == old(bs[k].State()).Moved(dt)
      invariant forall k :: i <= k < |bs| ==> bs[k].State() == old(bs[k].State())
    {
      DistinctAt(bs, i);
      bs[i].Move(dt);
      i := i + 1;
    }
  }

  /** The regular and underflow bins of `hxy` hold as many pairs as those of `hz`. */
  predicate Balanced(hxy: Hist2, hz: Hist1)
  {
    hxy.BlockSum(hxy.ax.n + 1, hxy.ay.n + 1) == hz.PartialSum(hz.axis.n + 1)
  }

  /** Grids and integrals agree in binning, and the two pair grids hold the same number
      of pairs. */
  predicate GridsValid(hxy: Hist2, hz: Hist1, hxt: Hist1, hyt: Hist1, hzt: Hist1)
  {
    && hxy.Valid() && hz.Valid() && hxt.Valid() && hyt.Valid() && hzt.Valid()
    && hxt.axis == hxy.ax && hyt.axis == hxy.ay && hzt.axis == hz.axis
    && Balanced(hxy, hz)
  }

  /** The grids `set_bins` leaves behind: the pairs of `h0` and `h1` on the new axes,
      the maximum of the x-y grid over its regular bins, and the time integrals `xt0`,
      `yt0`, `zt0` given the new axes without being reset. */
  method NewGrids(h0: Hist3, h1: Hist3, ax: Axis, ay: Axis, az: Axis, xt0: Hist1, yt0: Hist1, zt0: Hist1)
    returns (xy: Hist2, z: Hist1, m: nat, xt: Hist1, yt: Hist1, zt: Hist1)
    requires ax.Valid() && ay.Valid() && az.Valid()
    ensures GridsValid(xy, z, xt, yt, zt)
    ensures xy == PairsXY(PairCount(h0, h1), ax, ay, az.n)
    ensures z == PairsZ(PairCount(h0, h1), ax.n, ay.n, az)
    ensures forall i, j :: 1 <= i <= ax.n && 1 <= j <= ay.n ==> xy.cells[i][j] <= m
    ensures exists i, j :: 1 <= i <= ax.n && 1 <= j <= ay.n && xy.cells[i][j] == m
    ensures xt == Resized(xt0, ax) && yt == Resized(yt0, ay) && zt == Resized(zt0, az)
  {
    xy, z := PairGrids(h0, h1, ax, ay, az);
    m := xy.Maximum();
    xt, yt, zt := Resized(xt0, ax), Resized(yt0, ay), Resized(zt0, az);
  }

  /** The loop of `sim::set_bins`: every bunch is binned again on the new axes. */
  method BinAll(bs: seq<Bunch>, ax: Axis, ay: Axis, az: Axis)
    requires Distinct(bs) && ax.Valid() && ay.Valid() && az.Valid()
    modifies bs
    ensures StatesOf(bs) == RebinnedAll(old(StatesOf(bs)), ax, ay, az)
  {
    var i := 0;
    while i < |bs|
      invariant 0 <= i <= |bs|
      invariant forall k :: 0 <= k < i ==> bs[k].State() == old(bs[k].State()).Rebinned(ax, ay, az)
      invariant forall k :: i <= k < |bs| ==> bs[k].State() == old(bs[k].State())
    {
      DistinctAt(bs, i);
      bs[i].SetBins(ax, ay, az);
      i := i + 1;
    }
  }

  class Sim {
    /** Bunches in the simulation, in the order they were added. */
    var bunches: seq<Bunch>
    /** Pairs distribution in x and y. */
    var hxy: Hist2
    /** Pairs distribution in z. */
    var hz: Hist1
    /** Time integrals of the pairs along x, y and z. */
    var hxt: Hist1
    var hyt: Hist1
    var hzt: Hist1
    /** Maximum of `hxy` right after the binning was set. */
    var xymax: nat

    /** The grids and the integrals are consistent (see `GridsValid`), and no bunch
        is listed twice. */
    predicate Valid()
      reads this
    {
      Distinct(bunches) && GridsValid(hxy, hz, hxt, hyt, hzt)
    }

    /** The pair grids of the first two bunches on the current binning. */
    predicate PairsCurrent()
      reads this, bunches
      requires hxy.Valid() && hz.Valid() && |bunches| >= 2
    {
      var f := PairCount(bunches[0].hxyz, bunches[1].hxyz);
      hxy == PairsXY(f, hxy.ax, hxy.ay, hz.axis.n) && hz == PairsZ(f, hxy.ax.n, hxy.ay.n, hz.axis)
    }

    constructor ()
      ensures Valid() && bunches == []
      ensures hxy == Zero2(DefaultAxis, DefaultAxis) && hz == Zero1(DefaultAxis)
      ensures hxt == Zero1(DefaultAxis) && hyt == Zero1(DefaultAxis) && hzt == Zero1(DefaultAxis)
    {
      bunches := [];
      hxy := Zero2(DefaultAxis, DefaultAxis);
      hz := Zero1(DefaultAxis);
      hxt := Zero1(DefaultAxis);
      hyt := Zero1(DefaultAxis);
      hzt := Zero1(DefaultAxis);
      xymax := 0;
      Zero2Block(DefaultAxis, DefaultAxis, 2, 2);
      Zero1Sum(DefaultAxis, 2);
    }

    /** Appends a bunch; the bunches already there keep their places. */
    method AddBunch(b: Bunch)
      requires Valid() && b !in bunches
      modifies this
      ensures Valid() && bunches == old(bunches) + [b]
      ensures hxy == old(hxy) && hz == old(hz) && hxt == old(hxt) && hyt == old(hyt) && hzt == old(hzt)
      ensures xymax == old(xymax)
    {
      DistinctAppend(bunches, b);
      bunches := bunches + [b];
    }

    /** The `id`-th bunch added. */
    method GetBunch(id: int) returns (b: Bunch)
      requires 0 <= id < |bunches|
      ensures b == bunches[id]
    {
      b := bunches[id];
    }

    /** The largest pair count among the regular z bins. */
    method GetHzMax() returns (m: nat)
      requires Valid()
      ensures forall i :: 1 <= i <= hz.axis.n ==> hz.cells[i] <= m
      ensures exists i :: 1 <= i <= hz.axis.n && hz.cells[i] == m
    {
      m := hz.Maximum();
    }

    /** Resets the pair grids and refills them from the first two bunches. */
    method MakePairs()
      requires hxy.Valid() && hz.Valid() && |bunches| >= 2
      modifies this
      ensures bunches == old(bunches) && hxt == old(hxt) && hyt == old(hyt) && hzt == old(hzt)
      ensures xymax == old(xymax)
      ensures hxy.ax == old(hxy.ax) && hxy.ay == old(hxy.ay) && hz.axis == old(hz.axis)
      ensures hxy.Valid() && hz.Valid() && PairsCurrent() && Balanced(hxy, hz)
    {
      var xy, z := PairGrids(bunches[0].hxyz, bunches[1].hxyz, hxy.ax, hxy.ay, hz.axis);
      hxy, hz := xy, z;
    }

    /** Adds the current pair grids into the time integrals: row sums of `hxy` into
        `hxt`, column sums into `hyt`, and `hz` into `hzt`, over bins `0..n`. */
    method Accumulate()
      requires Valid()
      modifies this
      ensures Valid()
      ensures hxt.axis == old(hxt.axis) && hyt.axis == old(hyt.axis) && hzt.axis == old(hzt.axis)
      ensures forall i :: 0 <= i < |hxt.cells| ==>
                hxt.cells[i] == old(hxt.cells[i]) + (if i <= hxy.ax.n then hxy.RowSum(i, hxy.ay.n + 1) else 0)
      ensures forall j :: 0 <= j < |hyt.cells| ==>
                hyt.cells[j] == old(hyt.cells[j]) + (if j <= hxy.ay.n then hxy.ColSum(j, hxy.ax.n + 1) else 0)
      ensures forall k :: 0 <= k < |hzt.cells| ==>
                hzt.cells[k] == old(hzt.cells[k]) + (if k <= hz.axis.n then hz.cells[k] else 0)
      ensures hxt.Total() == old(hxt.Total()) + hxy.BlockSum(hxy.ax.n + 1, hxy.ay.n + 1)
      ensures hyt.Total() == old(hyt.Total()) + hxy.BlockSum(hxy.ax.n + 1, hxy.ay.n + 1)
      ensures hzt.Total() == old(hzt.Total()) + hz.PartialSum(hz.axis.n + 1)
      ensures bunches == old(bunches) && hxy == old(hxy) && hz == old(hz) && xymax == old(xymax)
    {
      var xt, yt := IntegrateXY(hxy, hxt, hyt);
      var zt := IntegrateZ(hz, hzt);
      hxt, hyt, hzt := xt, yt, zt;
    }

    /** Moves every bunch by `dt`, in list order, then recomputes the pairs. */
    method Move(dt: real)
      requires Valid() && AllValid(StatesOf(bunches)) && |bunches| >= 2
      modifies this, bunches
      ensures Valid() && bunches == old(bunches)
      ensures StatesOf(bunches) == MovedAll(old(StatesOf(bunches)), dt)
      ensures PairsCurrent()
      ensures hxy.ax == old(hxy.ax) && hxy.ay == old(hxy.ay) && hz.axis == old(hz.axis)
      ensures hxt == old(hxt) && hyt == old(hyt) && hzt == old(hzt) && xymax == old(xymax)
    {
      MoveAll(bunches, dt);
      MakePairs();
    }

    /** The grid part of `set_bins`: new binning for the pair grids, the pairs of the
        first two bunches on it, the maximum of the new x-y grid, and the time
        integrals given the new axes without a reset, keeping the counts that fit. */
    method ResetGrids(ax: Axis, ay: Axis, az: Axis)
      requires Valid() && |bunches| >= 2
      requires ax.Valid() && ay.Valid() && az.Valid()
      modifies this
      ensures Valid() && bunches == old(bunches)
      ensures hxy.ax == ax && hxy.ay == ay && hz.axis == az && PairsCurrent()
      ensures forall i, j :: 1 <= i <= ax.n && 1 <= j <= ay.n ==> hxy.cells[i][j] <= xymax
      ensures exists i, j :: 1 <= i <= ax.n && 1 <= j <= ay.n && hxy.cells[i][j] == xymax
      ensures hxt == Resized(old(hxt), ax) && hyt == Resized(old(hyt), ay) && hzt == Resized(old(hzt), az)
    {
      var xy, z, m, xt, yt, zt := NewGrids(bunches[0].hxyz, bunches[1].hxyz, ax, ay, az, hxt, hyt, hzt);
      hxy, hz, xymax, hxt, hyt, hzt := xy, z, m, xt, yt, zt;
    }

    /** New binning for every bunch and every grid, the pairs of that binning, the
        maximum of the new x-y grid, and the time integrals resized to the new axes
        without a reset. */
    method SetBins(ax: Axis, ay: Axis, az: Axis)
      requires Valid() && |bunches| >= 2
      requires ax.Valid() && ay.Valid() && az.Valid()
      modifies this, bunches
      ensures Valid() && bunches == old(bunches)
      ensures StatesOf(bunches) == RebinnedAll(old(StatesOf(bunches)), ax, ay, az)
      ensures hxy.ax == ax && hxy.ay == ay && hz.axis == az && PairsCurrent()
      ensures forall i, j :: 1 <= i <= ax.n && 1 <= j <= ay.n ==> hxy.cells[i][j] <= xymax
      ensures exists i, j :: 1 <= i <= ax.n && 1 <= j <= ay.n && hxy.cells[i][j] == xymax
      ensures hxt == Resized(old(hxt), ax) && hyt == Resized(old(hyt), ay) && hzt == Resized(old(hzt), az)
    {
      BinAll(bunches, ax, ay, az);
      ResetGrids(ax, ay, az);
    }

    /** `set_bins` with its default arguments. */
    method SetBinsDefault()
      requires Valid() && |bunches| >= 2
      modifies this, bunches
      ensures Valid() && bunches == old(bunches)
      ensures StatesOf(bunches) == RebinnedAll(old(StatesOf(bunches)), DefaultX, DefaultY, DefaultZ)
      ensures hxy.ax == DefaultX && hxy.ay == DefaultY && hz.axis == DefaultZ && PairsCurrent()
      ensures forall i, j :: 1 <= i <= DefaultX.n && 1 <= j <= DefaultY.n ==> hxy.cells[i][j] <= xymax
      ensures exists i, j :: 1 <= i <= DefaultX.n && 1 <= j <= DefaultY.n && hxy.cells[i][j] == xymax
      ensures hxt == Resized(old(hxt), DefaultX) && hyt == Resized(old(hyt), DefaultY) && hzt == Resized(old(hzt), DefaultZ)
    {
      SetBins(DefaultX, DefaultY, DefaultZ);
    }

    /** One step of `run_evolution`: every bunch moves by `dt`, the pairs are made again
        and added into the time integrals. */
    method Step(dt: real)
      requires Valid() && AllValid(StatesOf(bunches)) && |bunches| >= 2
      modifies this, bunches
      ensures Valid() && bunches == old(bunches) && PairsCurrent()
      ensures StatesOf(bunches) == MovedAll(old(StatesOf(bunches)), dt)
      ensures hxy.ax == old(hxy.ax) && hxy.ay == old(hxy.ay) && hz.axis == old(hz.axis)
      ensures hxt.axis == old(hxt.axis) && hyt.axis == old(hyt.axis) && hzt.axis == old(hzt.axis)
      ensures forall i :: 0 <= i < |hxt.cells| ==>
                hxt.cells[i] == old(hxt.cells[i]) + (if i <= hxy.ax.n then hxy.RowSum(i, hxy.ay.n + 1) else 0)
      ensures forall j :: 0 <= j < |hyt.cells| ==>
                hyt.cells[j] == old(hyt.cells[j]) + (if j <= hxy.ay.n then hxy.ColSum(j, hxy.ax.n + 1) else 0)
      ensures forall k :: 0 <= k < |hzt.cells| ==>
                hzt.cells[k] == old(hzt.cells[k]) + (if k <= hz.axis.n then hz.cells[k] else 0)
      ensures hxt.Total() == old(hxt.Total()) + hxy.BlockSum(hxy.ax.n + 1, hxy.ay.n + 1)
      ensures hyt.Total() == old(hyt.Total()) + hxy.BlockSum(hxy.ax.n + 1, hxy.ay.n + 1)
      ensures hzt.Total() == old(hzt.Total()) + hz.PartialSum(hz.axis.n + 1)
    {
      Move(dt);
      Accumulate();
    }

    /** A step taken as step `j = k + 1` of `run_evolution`: the bunches go from where
        step `k` left them to where step `j` leaves them, and no integral bin shrinks. */
    method Advance(dt: real, ghost ss: seq<BunchState>, ghost tmin: real, ghost k: nat, ghost j: nat)
      requires Valid() && |bunches| >= 2 && AllValid(ss) && j == k + 1
      requires StatesOf(bunches) == MovedAll(ss, Elapsed(tmin, dt, k))
      modifies this, bunches
      ensures Valid() && bunches == old(bunches) && PairsCurrent()
      ensures StatesOf(bunches) == MovedAll(ss, Elapsed(tmin, dt, j))
      ensures hxy.ax == old(hxy.ax) && hxy.ay == old(hxy.ay) && hz.axis == old(hz.axis)
      ensures Grew(old(hxt), hxt) && Grew(old(hyt), hyt) && Grew(old(hzt), hzt)
      ensures hxt.Total() - old(hxt.Total()) == hyt.Total() - old(hyt.Total()) == hzt.Total() - old(hzt.Total())
    {
      Step(dt);
      MovedAllNext(ss, tmin, dt, k, j);
    }

    /** The stepping loop of `run_evolution`: `nstep` further steps of `dt` from where
        step 0 left the bunches. */
    method Steps(dt: real, nstep: nat, ghost ss: seq<BunchState>, ghost tmin: real)
      requires Valid() && |bunches| >= 2 && AllValid(ss) && PairsCurrent()
      requires StatesOf(bunches) == MovedAll(ss, Elapsed(tmin, dt, 0))
      modifies this, bunches
      ensures Valid() && bunches == old(bunches) && PairsCurrent()
      ensures StatesOf(bunches) == MovedAll(ss, Elapsed(tmin, dt, nstep))
      ensures hxy.ax == old(hxy.ax) && hxy.ay == old(hxy.ay) && hz.axis == old(hz.axis)
      ensures Grew(old(hxt), hxt) && Grew(old(hyt), hyt) && Grew(old(hzt), hzt)
      ensures hxt.Total() - old(hxt.Total()) == hyt.Total() - old(hyt.Total()) == hzt.Total() - old(hzt.Total())
    {
      var i := 0;
      while i < nstep
        invariant 0 <= i <= nstep
        invariant Valid() && bunches == old(bunches) && PairsCurrent()
        invariant StatesOf(bunches) == MovedAll(ss, Elapsed(tmin, dt, i))
        invariant hxy.ax == old(hxy.ax) && hxy.ay == old(hxy.ay) && hz.axis == old(hz.axis)
        invariant Grew(old(hxt), hxt) && Grew(old(hyt), hyt) && Grew(old(hzt), hzt)
        invariant hxt.Total() - old(hxt.Total()) == hyt.Total() - old(hyt.Total()) == hzt.Total() - old(hzt.Total())
      {
        ghost var k := i;
        ghost var xt, yt, zt := hxt, hyt, hzt;
        i := i + 1;
        Advance(dt, ss, tmin, k, i);
        GrewTrans(old(hxt), xt, hxt);
        GrewTrans(old(hyt), yt, hyt);
        GrewTrans(old(hzt), zt, hzt);
      }
    }

    /** Evolves the bunches over `[tmin, tmax)` in `nstep` equal steps: one pre-roll
        move to `tmin - dt`, then `nstep` moves of `dt`, each followed by the
        accumulation of the pair grids into the time integrals. */
    method RunEvolution(tmin: real, tmax: real, nstep: int)
      requires Valid() && AllValid(StatesOf(bunches)) && |bunches| >= 2 && nstep > 0
      modifies this, bunches
      ensures Valid() && bunches == old(bunches) && PairsCurrent()
      ensures StatesOf(bunches) == MovedAll(old(StatesOf(bunches)), tmax - (tmax - tmin) / (nstep as real))
      ensures hxy.ax == old(hxy.ax) && hxy.ay == old(hxy.ay) && hz.axis == old(hz.axis)
      ensures Grew(old(hxt), hxt) && Grew(old(hyt), hyt) && Grew(old(hzt), hzt)
      ensures hxt.Total() - old(hxt.Total()) == hyt.Total() - old(hyt.Total()) == hzt.Total() - old(hzt.Total())
    {
      var dt := (tmax - tmin) / (nstep as real);
      ghost var ss := StatesOf(bunches);
      var t0 := tmin - dt;
      Move(t0);
      MovedAllStart(ss, tmin, dt, t0);
      Steps(dt, nstep, ss, tmin);
      MovedAllEnd(ss, tmin, tmax, nstep, dt, nstep);
    }
  }
}
