/** Electron-proton pair counting between two bunch histograms: in every 3-D bin the
    number of pairs is the smaller of the two counts, and the pair counts are summed
    onto an x-y grid and a z line. */
module Pairs {
  import opened Sums
  import opened Histograms
  import opened Bunches

  function Min(a: nat, b: nat): (m: nat)
    ensures m <= a && m <= b && (m == a || m == b)
  {
    if a < b then a else b
  }

  /** Pairs in bin `(i, j, k)`: the smaller of the two bunches' counts there. */
  function PairCount(h0: Hist3, h1: Hist3): (nat, nat, nat) -> nat
  {
    (i: nat, j: nat, k: nat) => Min(h0.At(i, j, k), h1.At(i, j, k))
  }

  /** The x-y pair grid once every bin has been visited: bin `(i, j)` holds the pairs of
      `z` bins `0..nz`; the overflow row and column stay empty. */
  function PairsXY(f: (nat, nat, nat) -> nat, ax: Axis, ay: Axis, nz: nat): (h: Hist2)
    requires ax.Valid() && ay.Valid()
    ensures h.Valid() && h.ax == ax && h.ay == ay
  {
    Hist2(ax, ay, seq(ax.n + 2, i => seq(ay.n + 2, j => PairXYCell(f, ax.n, ay.n, nz, i, j))))
  }

  function PairXYCell(f: (nat, nat, nat) -> nat, nx: nat, ny: nat, nz: nat, i: int, j: int): nat
  {
    if 0 <= i <= nx && 0 <= j <= ny then Line(f, i, j, nz + 1) else 0
  }

  /** The z pair line once every bin has been visited: bin `k` holds the pairs of the
      x-y bins `0..nx` by `0..ny`; the overflow bin stays empty. */
  function PairsZ(f: (nat, nat, nat) -> nat, nx: nat, ny: nat, az: Axis): (h: Hist1)
    requires az.Valid()
    ensures h.Valid() && h.axis == az
  {
    Hist1(az, seq(az.n + 2, k => PairZCell(f, nx, ny, az.n, k)))
  }

  function PairZCell(f: (nat, nat, nat) -> nat, nx: nat, ny: nat, nz: nat, k: int): nat
  {
    if 0 <= k <= nz then Layer(f, k, nx + 1, ny + 1) else 0
  }

  /** Content of x-y bin `(i, j)` when the loops stand at `(ix, iy, iz)`. */
  function XYCell(f: (nat, nat, nat) -> nat, ny: nat, nz: nat, ix: nat, iy: nat, iz: nat, i: int, j: int): nat
  {
    if i < 0 || j < 0 then 0
    else if j <= ny && (i < ix || (i == ix && j < iy)) then Line(f, i, j, nz + 1)
    else if i == ix && j == iy then Line(f, i, j, iz)
    else 0
  }

  /** The x-y grid when the loops stand at `(ix, iy, iz)`. */
  function XYPartial(f: (nat, nat, nat) -> nat, ax: Axis, ay: Axis, nz: nat, ix: nat, iy: nat, iz: nat): (h: Hist2)
    requires ax.Valid() && ay.Valid()
    ensures h.Valid() && h.ax == ax && h.ay == ay
  {
    Hist2(ax, ay, seq(ax.n + 2, i => seq(ay.n + 2, j => XYCell(f, ay.n, nz, ix, iy, iz, i, j))))
  }

  /** Content of z bin `k <= nz` when the loops stand at `(ix, iy, iz)`. */
  function ZCell(f: (nat, nat, nat) -> nat, ny: nat, nz: nat, ix: nat, iy: nat, iz: nat, k: int): nat
  {
    if k < 0 || nz < k then 0
    else Layer(f, k, ix, ny + 1) + CrossLine(f, ix, k, iy) + (if k < iz then f(ix, iy, k) else 0)
  }

  /** The z line when the loops stand at `(ix, iy, iz)`. */
  function ZPartial(f: (nat, nat, nat) -> nat, ny: nat, az: Axis, ix: nat, iy: nat, iz: nat): (h: Hist1)
    requires az.Valid()
    ensures h.Valid() && h.axis == az
  {
    Hist1(az, seq(az.n + 2, k => ZCell(f, ny, az.n, ix, iy, iz, k)))
  }

  lemma XYStart(f: (nat, nat, nat) -> nat, ax: Axis, ay: Axis, nz: nat)
    requires ax.Valid() && ay.Valid()
    ensures XYPartial(f, ax, ay, nz, 0, 0, 0) == Zero2(ax, ay)
  {
    Hist2Ext(XYPartial(f, ax, ay, nz, 0, 0, 0), Zero2(ax, ay));
  }

  /** One pass of the innermost loop body adds the pairs of bin `(ix, iy, iz)` to x-y bin `(ix, iy)`. */
  lemma XYStep(f: (nat, nat, nat) -> nat, ax: Axis, ay: Axis, nz: nat, ix: nat, iy: nat, iz: nat)
    requires ax.Valid() && ay.Valid() && ix <= ax.n && iy <= ay.n && iz <= nz
    ensures var h := XYPartial(f, ax, ay, nz, ix, iy, iz);
            h.Set(ix, iy, f(ix, iy, iz) + h.At(ix, iy)) == XYPartial(f, ax, ay, nz, ix, iy, iz + 1)
  {
    var h := XYPartial(f, ax, ay, nz, ix, iy, iz);
    var h' := XYPartial(f, ax, ay, nz, ix, iy, iz + 1);
    assert h.At(ix, iy) == Line(f, ix, iy, iz);
    Hist2Ext(h.Set(ix, iy, f(ix, iy, iz) + h.At(ix, iy)), h');
  }

  lemma XYNextY(f: (nat, nat, nat) -> nat, ax: Axis, ay: Axis, nz: nat, ix: nat, iy: nat)
    requires ax.Valid() && ay.Valid() && iy <= ay.n
    ensures XYPartial(f, ax, ay, nz, ix, iy, nz + 1) == XYPartial(f, ax, ay, nz, ix, iy + 1, 0)
  {
    Hist2Ext(XYPartial(f, ax, ay, nz, ix, iy, nz + 1), XYPartial(f, ax, ay, nz, ix, iy + 1, 0));
  }

  lemma XYNextX(f: (nat, nat, nat) -> nat, ax: Axis, ay: Axis, nz: nat, ix: nat)
    requires ax.Valid() && ay.Valid()
    ensures XYPartial(f, ax, ay, nz, ix, ay.n + 1, 0) == XYPartial(f, ax, ay, nz, ix + 1, 0, 0)
  {
    Hist2Ext(XYPartial(f, ax, ay, nz, ix, ay.n + 1, 0), XYPartial(f, ax, ay, nz, ix + 1, 0, 0));
  }

  lemma XYDone(f: (nat, nat, nat) -> nat, ax: Axis, ay: Axis, nz: nat)
    requires ax.Valid() && ay.Valid()
    ensures XYPartial(f, ax, ay, nz, ax.n + 1, 0, 0) == PairsXY(f, ax, ay, nz)
  {
    Hist2Ext(XYPartial(f, ax, ay, nz, ax.n + 1, 0, 0), PairsXY(f, ax, ay, nz));
  }

  lemma ZStart(f: (nat, nat, nat) -> nat, ny: nat, az: Axis)
    requires az.Valid()
    ensures ZPartial(f, ny, az, 0, 0, 0) == Zero1(az)
  {
    Hist1Ext(ZPartial(f, ny, az, 0, 0, 0), Zero1(az));
  }

  /** One pass of the innermost loop body adds the pairs of bin `(ix, iy, iz)` to z bin `iz`. */
  lemma ZStep(f: (nat, nat, nat) -> nat, ny: nat, az: Axis, ix: nat, iy: nat, iz: nat)
    requires az.Valid() && iz <= az.n
    ensures var h := ZPartial(f, ny, az, ix, iy, iz);
            h.Set(iz, f(ix, iy, iz) + h.At(iz)) == ZPartial(f, ny, az, ix, iy, iz + 1)
  {
    var h := ZPartial(f, ny, az, ix, iy, iz);
    Hist1Ext(h.Set(iz, f(ix, iy, iz) + h.At(iz)), ZPartial(f, ny, az, ix, iy, iz + 1));
  }

  lemma ZNextY(f: (nat, nat, nat) -> nat, ny: nat, az: Axis, ix: nat, iy: nat)
    requires az.Valid()
    ensures ZPartial(f, ny, az, ix, iy, az.n + 1) == ZPartial(f, ny, az, ix, iy + 1, 0)
  {
    Hist1Ext(ZPartial(f, ny, az, ix, iy, az.n + 1), ZPartial(f, ny, az, ix, iy + 1, 0));
  }

  lemma ZNextX(f: (nat, nat, nat) -> nat, ny: nat, az: Axis, ix: nat)
    requires az.Valid()
    ensures ZPartial(f, ny, az, ix, ny + 1, 0) == ZPartial(f, ny, az, ix + 1, 0, 0)
  {
    Hist1Ext(ZPartial(f, ny, az, ix, ny + 1, 0), ZPartial(f, ny, az, ix + 1, 0, 0));
  }

  lemma ZDone(f: (nat, nat, nat) -> nat, nx: nat, ny: nat, az: Axis)
    requires az.Valid()
    ensures ZPartial(f, ny, az, nx + 1, 0, 0) == PairsZ(f, nx, ny, az)
  {
    Hist1Ext(ZPartial(f, ny, az, nx + 1, 0, 0), PairsZ(f, nx, ny, az));
  }

  /** The x-y grid's block of visited bins holds every pair of the visited box. */
  lemma PairsXYTotal(f: (nat, nat, nat) -> nat, ax: Axis, ay: Axis, nz: nat)
    requires ax.Valid() && ay.Valid()
    ensures PairsXY(f, ax, ay, nz).BlockSum(ax.n + 1, ay.n + 1) == Sum3(ax.n + 1, ay.n + 1, nz + 1, f)
  {
    var h := PairsXY(f, ax, ay, nz);
    var l, m, n := ax.n + 1, ay.n + 1, nz + 1;
    forall i: nat | i < l
      ensures h.RowSum(i, m) == Slab(f, i, m, n)
    {
      SumExt(m, j => h.At(i, j), j => Line(f, i, j, n));
    }
    SumExt(l, i => h.RowSum(i, m), i => Slab(f, i, m, n));
  }

  /** The z line's visited bins hold every pair of the visited box. */
  lemma PairsZTotal(f: (nat, nat, nat) -> nat, nx: nat, ny: nat, az: Axis)
    requires az.Valid()
    ensures PairsZ(f, nx, ny, az).PartialSum(az.n + 1) == Sum3(nx + 1, ny + 1, az.n + 1, f)
  {
    var h := PairsZ(f, nx, ny, az);
    SumExt(az.n + 1, k => h.At(k), k => Layer(f, k, nx + 1, ny + 1));
    Sum3Rotate(nx + 1, ny + 1, az.n + 1, f);
  }

  /** The x-y grid and the z line count the same pairs. */
  lemma PairsBalanced(f: (nat, nat, nat) -> nat, ax: Axis, ay: Axis, az: Axis)
    requires ax.Valid() && ay.Valid() && az.Valid()
    ensures PairsXY(f, ax, ay, az.n).BlockSum(ax.n + 1, ay.n + 1) == PairsZ(f, ax.n, ay.n, az).PartialSum(az.n + 1)
  {
    PairsXYTotal(f, ax, ay, az.n);
    PairsZTotal(f, ax.n, ay.n, az);
  }

  /** Swapping the two bunches gives the same pair grids. */
  lemma PairsSwap(h0: Hist3, h1: Hist3, ax: Axis, ay: Axis, az: Axis)
    requires ax.Valid() && ay.Valid() && az.Valid()
    ensures PairsXY(PairCount(h0, h1), ax, ay, az.n) == PairsXY(PairCount(h1, h0), ax, ay, az.n)
    ensures PairsZ(PairCount(h0, h1), ax.n, ay.n, az) == PairsZ(PairCount(h1, h0), ax.n, ay.n, az)
  {
    var f, g := PairCount(h0, h1), PairCount(h1, h0);
    var l, m, n := ax.n + 1, ay.n + 1, az.n + 1;
    forall i: nat, j: nat
      ensures Line(f, i, j, n) == Line(g, i, j, n)
    {
      SumExt(n, k => f(i, j, k), k => g(i, j, k));
    }
    var a, b := PairsXY(f, ax, ay, az.n), PairsXY(g, ax, ay, az.n);
    forall i: nat, j: nat | i < ax.n + 2 && j < ay.n + 2
      ensures a.cells[i][j] == b.cells[i][j]
    {
    }
    Hist2Ext(a, b);
    forall k: nat
      ensures Layer(f, k, l, m) == Layer(g, k, l, m)
    {
      forall i: nat
        ensures CrossLine(f, i, k, m) == CrossLine(g, i, k, m)
      {
        SumExt(m, j => f(i, j, k), j => g(i, j, k));
      }
      SumExt(l, i => CrossLine(f, i, k, m), i => CrossLine(g, i, k, m));
    }
    Hist1Ext(PairsZ(f, ax.n, ay.n, az), PairsZ(g, ax.n, ay.n, az));
  }

  /** Within a box no larger than both histograms (overflow included), there are no
      more pairs than counts in either histogram. */
  lemma PairsBounded(h0: Hist3, h1: Hist3, l: nat, m: nat, n: nat)
    requires h0.Valid() && h1.Valid()
    requires l <= h0.ax.n + 2 && m <= h0.ay.n + 2 && n <= h0.az.n + 2
    requires l <= h1.ax.n + 2 && m <= h1.ay.n + 2 && n <= h1.az.n + 2
    ensures Sum3(l, m, n, PairCount(h0, h1)) <= h0.Total()
    ensures Sum3(l, m, n, PairCount(h0, h1)) <= h1.Total()
  {
    PairsBoundedBy(h0, h1, h0, l, m, n);
    PairsBoundedBy(h0, h1, h1, l, m, n);
  }

  lemma PairsBoundedBy(h0: Hist3, h1: Hist3, h: Hist3, l: nat, m: nat, n: nat)
    requires h.Valid() && (h == h0 || h == h1)
    requires l <= h.ax.n + 2 && m <= h.ay.n + 2 && n <= h.az.n + 2
    ensures Sum3(l, m, n, PairCount(h0, h1)) <= h.Total()
  {
    var f, g := PairCount(h0, h1), h.Contents();
    forall i: nat, j: nat, k: nat | i < l && j < m && k < n
      ensures f(i, j, k) <= g(i, j, k)
    {
    }
    Sum3Le(l, m, n, f, g);
    Sum3Prefix(l, m, n, h.ax.n + 2, h.ay.n + 2, h.az.n + 2, g);
  }

  /** On grids with the histograms' own axes, the pairs counted along z never exceed
      the total of either histogram. */
  lemma PairsZBounded(h0: Hist3, h1: Hist3)
    requires h0.Valid() && h1.Valid() && h0.ax == h1.ax && h0.ay == h1.ay && h0.az == h1.az
    ensures PairsZ(PairCount(h0, h1), h0.ax.n, h0.ay.n, h0.az).PartialSum(h0.az.n + 1) <= Min(h0.Total(), h1.Total())
  {
    var f := PairCount(h0, h1);
    PairsZTotal(f, h0.ax.n, h0.ay.n, h0.az);
    PairsBounded(h0, h1, h0.ax.n + 1, h0.ay.n + 1, h0.az.n + 1);
  }
}
