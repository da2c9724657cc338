/** The parts of ROOT's fixed-bin histograms (TAxis, TH1D, TH2D, TH3D) that the
    simulation relies on. Every axis has `n` regular bins numbered `1..n`, an
    underflow bin 0 and an overflow bin `n+1`; contents are unit-weight counts,
    so they are kept as natural numbers. */
module Histograms {
  import opened Sums

  /** A fixed-width axis: `n` bins of equal width covering `[lo, hi)`. */
  datatype Axis = Axis(n: nat, lo: real, hi: real) {

    predicate Valid() { n >= 1 && lo < hi }

    /** GetBinWidth: the same width for every bin, under- and overflow included. */
    function Width(): (w: real)
      requires Valid()
      ensures w > 0.0
    {
      (hi - lo) / (n as real)
    }

    /** GetBinLowEdge: for a fixed-bin axis `lo + (i-1)*width`, for every index `i`,
        so index 0 (underflow) gets the edge one width below `lo`. */
    function LowEdge(i: int): real
      requires Valid()
    {
      lo + ((i - 1) as real) * Width()
    }

    /** FindBin: the bin a coordinate falls into. */
    function FindBin(x: real): (b: nat)
      requires Valid()
      ensures b <= n + 1
    {
      if x < lo then 0
      else if !(x < hi) then n + 1
      else
        FindBinInRange(this, x);
        1 + Scaled(x).Floor
    }

    /** Position of `x` measured in bin widths from `lo`. */
    function Scaled(x: real): real
      requires Valid()
    {
      (n as real) * (x - lo) / (hi - lo)
    }
  }

  /** The axis a default-constructed ROOT histogram has: one bin on `[0, 1)`. */
  const DefaultAxis: Axis := Axis(1, 0.0, 1.0)

  /** FindBin sends everything below `lo` to the underflow bin, everything at or above
      `hi` to the overflow bin, and anything else to the regular bin whose edges
      bracket it. */
  lemma FindBinCorrect(a: Axis, x: real)
    requires a.Valid()
    ensures a.FindBin(x) == 0 <==> x < a.lo
    ensures a.FindBin(x) == a.n + 1 <==> a.hi <= x
    ensures 1 <= a.FindBin(x) <= a.n ==> a.LowEdge(a.FindBin(x)) <= x < a.LowEdge(a.FindBin(x) + 1)
  {
    if a.lo <= x < a.hi {
      FindBinInRange(a, x);
    }
  }

  lemma FindBinInRange(a: Axis, x: real)
    requires a.Valid() && a.lo <= x < a.hi
    ensures 0 <= a.Scaled(x).Floor < a.n
    ensures a.LowEdge(1 + a.Scaled(x).Floor) <= x < a.LowEdge(2 + a.Scaled(x).Floor)
  {
    var n, u, d := a.n as real, x - a.lo, a.hi - a.lo;
    var w := a.Width();
    var t := a.Scaled(x);
    var f := t.Floor;
    var fr := f as real;
    var g := fr + 1.0;
    ScaleBack(n, u, d, t, w);
    FractionBelowOne(n, u, d, t);
    Bracket(t, w, u, fr, g);
    EdgesAt(a, f, fr, g, w);
  }

  /** A point `t` widths into an axis lies between the edges `fr` and `g` widths in. */
  lemma Bracket(t: real, w: real, u: real, fr: real, g: real)
    requires w > 0.0 && t * w == u && fr <= t < g
    ensures fr * w <= u < g * w
  {
    MulStrict(t, g, w);
  }

  /** The edges of the bin `1 + f` in terms of the width. */
  lemma EdgesAt(a: Axis, f: int, fr: real, g: real, w: real)
    requires a.Valid() && w == a.Width() && fr == f as real && g == fr + 1.0
    ensures a.LowEdge(1 + f) == a.lo + fr * w
    ensures a.LowEdge(2 + f) == a.lo + g * w
  {
    assert ((1 + f) - 1) as real == fr;
    assert ((2 + f) - 1) as real == g;
  }

  lemma ScaleBack(n: real, u: real, d: real, t: real, w: real)
    requires n > 0.0 && d > 0.0 && t == n * u / d && w == d / n
    ensures t * w == u
  {
    assert t * d == n * u;
    assert t * w == (t * d) / n;
  }

  lemma FractionBelowOne(n: real, u: real, d: real, t: real)
    requires n > 0.0 && d > 0.0 && 0.0 <= u < d && t == n * u / d
    ensures 0.0 <= t < n
  {
    assert n * u < n * d;
    DivBelow(n * u, n, d);
  }

  lemma DivBelow(p: real, q: real, d: real)
    requires d > 0.0 && p < q * d
    ensures p / d < q
  {
    var a := p / d;
    assert a * d == p;
    if a >= q {
      assert a * d >= q * d;
    }
  }

  lemma MulStrict(a: real, b: real, w: real)
    requires a < b && w > 0.0
    ensures a * w < b * w
  {
  }

  /** Index clamped into `[0, len)`, as ROOT clamps bin numbers when reading. */
  function Clamp(i: nat, len: nat): (r: nat)
    requires len > 0
    ensures r < len
  {
    if i < len then i else len - 1
  }

  /** A one-dimensional histogram (TH1D). */
  datatype Hist1 = Hist1(axis: Axis, cells: seq<nat>) {

    predicate Valid() { axis.Valid() && |cells| == axis.n + 2 }

    /** GetBinContent: an index past the overflow bin reads the overflow bin. */
    function At(i: nat): nat
    {
      if i < |cells| then cells[i] else if |cells| == 0 then 0 else cells[|cells| - 1]
    }

    /** Sum of every bin, under- and overflow included. */
    function Total(): nat
    {
      Sum(|cells|, i => At(i))
    }

    /** Sum of bins `0 .. m-1`. */
    function PartialSum(m: nat): nat
    {
      Sum(m, i => At(i))
    }

    /** AddBinContent. */
    function Add(i: nat, w: nat): (h: Hist1)
      requires i < |cells|
      ensures h.axis == axis && |h.cells| == |cells|
      ensures forall k :: 0 <= k < |cells| ==> h.cells[k] == cells[k] + (if k == i then w else 0)
    {
      Hist1(axis, cells[i := cells[i] + w])
    }

    /** SetBinContent. */
    function Set(i: nat, v: nat): (h: Hist1)
      requires Valid() && i < |cells|
      ensures h.Valid() && h.axis == axis
      ensures forall k :: 0 <= k < |cells| ==> h.cells[k] == if k == i then v else cells[k]
    {
      Hist1(axis, cells[i := v])
    }

    /** GetMaximum: the largest content among the regular bins `1..n`. */
    function Maximum(): (m: nat)
      requires Valid()
      ensures forall i :: 1 <= i <= axis.n ==> cells[i] <= m
      ensures exists i :: 1 <= i <= axis.n && cells[i] == m
    {
      MaxOf(cells, 1, axis.n)
    }
  }

  /** AddBinContent raises the total by exactly the added weight. */
  lemma AddTotal(h: Hist1, i: nat, w: nat)
    requires i < |h.cells|
    ensures h.Add(i, w).Total() == h.Total() + w
  {
    var h' := h.Add(i, w);
    var bump: nat -> nat := k => if k == i then w else 0;
    SumAdd(|h.cells|, k => h.At(k), bump, k => h'.At(k));
    SumSingle(|h.cells|, i, bump);
  }

  /** A default-constructed or Reset 1-D histogram on the given axis: every bin zero. */
  function Zero1(a: Axis): (h: Hist1)
    requires a.Valid()
    ensures h.Valid() && h.axis == a
    ensures forall i :: 0 <= i < |h.cells| ==> h.cells[i] == 0
  {
    Hist1(a, seq(a.n + 2, i => 0))
  }

  /** Two 1-D histograms with the same axis and the same contents in every bin are equal. */
  lemma Hist1Ext(a: Hist1, b: Hist1)
    requires a.Valid() && b.Valid() && a.axis == b.axis
    requires forall i: nat :: i < a.axis.n + 2 ==> a.cells[i] == b.cells[i]
    ensures a == b
  {
    assert forall i :: 0 <= i < |a.cells| ==> a.cells[i] == b.cells[i];
  }

  /** Every partial sum of an all-zero histogram is zero. */
  lemma Zero1Sum(a: Axis, m: nat)
    requires a.Valid()
    ensures Zero1(a).PartialSum(m) == 0
  {
    var h := Zero1(a);
    SumZero(m, k => h.At(k));
  }

  lemma Zero1Total(a: Axis)
    requires a.Valid()
    ensures Zero1(a).Total() == 0
  {
    var h := Zero1(a);
    SumZero(|h.cells|, k => h.At(k));
  }

  /** SetBins on a 1-D histogram without a Reset: the new axis, and the content array
      resized to `n + 2` cells the way ROOT's TArrayD::Set resizes it. Cells that still
      fit keep their contents, and any new cells start at zero. */
  function Resized(h: Hist1, a: Axis): (r: Hist1)
    requires a.Valid()
    ensures r.Valid() && r.axis == a
  {
    Hist1(a, seq(a.n + 2, i requires 0 <= i < a.n + 2 => if i < |h.cells| then h.cells[i] else 0))
  }

  /** Resizing keeps every old cell that fits and zeroes the rest. */
  lemma ResizedCells(h: Hist1, a: Axis)
    requires a.Valid()
    ensures forall i :: 0 <= i < |h.cells| && i < a.n + 2 ==> Resized(h, a).cells[i] == h.cells[i]
    ensures forall i :: |h.cells| <= i < a.n + 2 ==> Resized(h, a).cells[i] == 0
  {
  }

  /** With the number of bins unchanged, new binning keeps every count. */
  lemma ResizedKeeps(h: Hist1, a: Axis)
    requires h.Valid() && a.Valid() && a.n == h.axis.n
    ensures Resized(h, a).cells == h.cells
  {
    var r := Resized(h, a);
    assert |r.cells| == |h.cells|;
    forall i | 0 <= i < |h.cells|
      ensures r.cells[i] == h.cells[i]
    {
    }
  }

  /** New binning of an empty histogram is an empty histogram on the new axis. */
  lemma ResizedEmpty(b: Axis, a: Axis)
    requires b.Valid() && a.Valid()
    ensures Resized(Zero1(b), a) == Zero1(a)
  {
    var r, z := Resized(Zero1(b), a), Zero1(a);
    forall i | 0 <= i < |z.cells|
      ensures r.cells[i] == z.cells[i]
    {
    }
  }

  /** The largest of `s[lo..hi]` (both ends included). */
  function MaxOf(s: seq<nat>, lo: nat, hi: nat): (m: nat)
    requires lo <= hi < |s|
    ensures forall i :: lo <= i <= hi ==> s[i] <= m
    ensures exists i :: lo <= i <= hi && s[i] == m
    decreases hi - lo
  {
    if lo == hi then s[lo]
    else
      var rest := MaxOf(s, lo + 1, hi);
      if s[lo] >= rest then s[lo] else rest
  }

  /** A two-dimensional histogram (TH2D), indexed `cells[ix][iy]`. */
  datatype Hist2 = Hist2(ax: Axis, ay: Axis, cells: seq<seq<nat>>) {

    predicate Valid()
    {
      && ax.Valid() && ay.Valid()
      && |cells| == ax.n + 2
      && forall i :: 0 <= i < |cells| ==> |cells[i]| == ay.n + 2
    }

    /** GetBinContent with both indices clamped to the overflow bins. */
    function At(i: nat, j: nat): nat
    {
      if |cells| == 0 then 0
      else
        var r := cells[Clamp(i, |cells|)];
        if |r| == 0 then 0 else r[Clamp(j, |r|)]
    }

    /** Sum of `At(i, 0) .. At(i, m-1)`. */
    function RowSum(i: nat, m: nat): nat
    {
      Sum(m, j => At(i, j))
    }

    /** Sum of `At(0, j) .. At(l-1, j)`. */
    function ColSum(j: nat, l: nat): nat
    {
      Sum(l, i => At(i, j))
    }

    /** Sum of the block of bins `[0, l) x [0, m)`, row by row. */
    function BlockSum(l: nat, m: nat): nat
    {
      Sum(l, i => RowSum(i, m))
    }

    /** SetBinContent. */
    function Set(i: nat, j: nat, v: nat): (h: Hist2)
      requires Valid() && i < |cells| && j < |cells[i]|
      ensures h.Valid() && h.ax == ax && h.ay == ay
    {
      var row: seq<nat> := cells[i][j := v];
      Hist2(ax, ay, cells[i := row])
    }

    /** GetMaximum: the largest content among the regular bins. */
    function Maximum(): (m: nat)
      requires Valid()
      ensures forall i, j :: 1 <= i <= ax.n && 1 <= j <= ay.n ==> cells[i][j] <= m
      ensures exists i, j :: 1 <= i <= ax.n && 1 <= j <= ay.n && cells[i][j] == m
    {
      MaxOfRows(cells, 1, ax.n, ay.n)
    }
  }

  /** The largest of `rows[i][1..ny]` over `i` in `lo..hi`. */
  function MaxOfRows(rows: seq<seq<nat>>, lo: nat, hi: nat, ny: nat): (m: nat)
    requires lo <= hi < |rows| && ny >= 1
    requires forall i :: lo <= i <= hi ==> |rows[i]| > ny
    ensures forall i, j :: lo <= i <= hi && 1 <= j <= ny ==> rows[i][j] <= m
    ensures exists i, j :: lo <= i <= hi && 1 <= j <= ny && rows[i][j] == m
    decreases hi - lo
  {
    var here := MaxOf(rows[lo], 1, ny);
    if lo == hi then here
    else
      var rest := MaxOfRows(rows, lo + 1, hi, ny);
      if here >= rest then here else rest
  }

  /** Two 2-D histograms with the same axes and the same contents in every bin are equal. */
  lemma Hist2Ext(a: Hist2, b: Hist2)
    requires a.Valid() && b.Valid() && a.ax == b.ax && a.ay == b.ay
    requires forall i: nat, j: nat :: i < a.ax.n + 2 && j < a.ay.n + 2 ==> a.cells[i][j] == b.cells[i][j]
    ensures a == b
  {
    forall i | 0 <= i < |a.cells|
      ensures a.cells[i] == b.cells[i]
    {
      assert forall j :: 0 <= j < |a.cells[i]| ==> a.cells[i][j] == b.cells[i][j];
    }
  }

  /** Every block sum of an all-zero histogram is zero. */
  lemma Zero2Block(ax: Axis, ay: Axis, l: nat, m: nat)
    requires ax.Valid() && ay.Valid()
    ensures Zero2(ax, ay).BlockSum(l, m) == 0
  {
    var h := Zero2(ax, ay);
    forall i: nat | i < l
      ensures h.RowSum(i, m) == 0
    {
      SumZero(m, j => h.At(i, j));
    }
    SumZero(l, i => h.RowSum(i, m));
  }

  function Zero2(ax: Axis, ay: Axis): (h: Hist2)
    requires ax.Valid() && ay.Valid()
    ensures h.Valid() && h.ax == ax && h.ay == ay
    ensures forall i, j :: 0 <= i < |h.cells| && 0 <= j < |h.cells[i]| ==> h.cells[i][j] == 0
  {
    Hist2(ax, ay, seq(ax.n + 2, i => seq(ay.n + 2, j => 0)))
  }

  /** A three-dimensional histogram (TH3D), indexed `cells[ix][iy][iz]`. */
  datatype Hist3 = Hist3(ax: Axis, ay: Axis, az: Axis, cells: seq<seq<seq<nat>>>) {

    predicate Valid()
    {
      && ax.Valid() && ay.Valid() && az.Valid()
      && |cells| == ax.n + 2
      && (forall i :: 0 <= i < |cells| ==> |cells[i]| == ay.n + 2)
      && (forall i, j :: 0 <= i < |cells| && 0 <= j < |cells[i]| ==> |cells[i][j]| == az.n + 2)
    }

    /** Bin `(i, j, k)` lies inside the histogram (under- and overflow included). */
    predicate InBox(i: nat, j: nat, k: nat)
    {
      i < ax.n + 2 && j < ay.n + 2 && k < az.n + 2
    }

    /** GetBinContent with every index clamped to its overflow bin. */
    function At(i: nat, j: nat, k: nat): nat
    {
      if |cells| == 0 then 0
      else
        var p := cells[Clamp(i, |cells|)];
        if |p| == 0 then 0
        else
          var r := p[Clamp(j, |p|)];
          if |r| == 0 then 0 else r[Clamp(k, |r|)]
    }

    function Contents(): (nat, nat, nat) -> nat
    {
      (i, j, k) => At(i, j, k)
    }

    /** Sum of every bin, under- and overflow included. */
    function Total(): nat
    {
      Sum3(ax.n + 2, ay.n + 2, az.n + 2, Contents())
    }

    /** Fill with unit weight: one more count in the bin of `(x, y, z)`. */
    function Fill(x: real, y: real, z: real): (h: Hist3)
      requires Valid()
      ensures h.Valid() && h.ax == ax && h.ay == ay && h.az == az
    {
      var i, j, k := ax.FindBin(x), ay.FindBin(y), az.FindBin(z);
      Update(i, j, k, cells[i][j][k] + 1)
    }

    /** The histogram with bin `(i, j, k)` set to `v`. */
    function Update(i: nat, j: nat, k: nat, v: nat): (h: Hist3)
      requires Valid() && InBox(i, j, k)
      ensures h.Valid() && h.ax == ax && h.ay == ay && h.az == az
    {
      var line: seq<nat> := cells[i][j][k := v];
      var plane: seq<seq<nat>> := cells[i][j := line];
      Hist3(ax, ay, az, cells[i := plane])
    }
  }

  lemma UpdateCell(h: Hist3, a: nat, b: nat, c: nat, v: nat)
    requires h.Valid() && h.InBox(a, b, c)
    ensures var h' := h.Update(a, b, c, v);
            && h'.Valid() && h'.ax == h.ax && h'.ay == h.ay && h'.az == h.az
            && forall i: nat, j: nat, k: nat :: h.InBox(i, j, k) ==>
                 h'.cells[i][j][k] == if i == a && j == b && k == c then v else h.cells[i][j][k]
  {
  }

  lemma AtInBox(h: Hist3, i: nat, j: nat, k: nat)
    requires h.Valid() && h.InBox(i, j, k)
    ensures h.Contents()(i, j, k) == h.At(i, j, k) == h.cells[i][j][k]
  {
  }

  /** Fill adds one count to the bin of `(x, y, z)` and changes no other bin. */
  lemma FillCells(h: Hist3, x: real, y: real, z: real)
    requires h.Valid()
    ensures forall i: nat, j: nat, k: nat :: h.InBox(i, j, k) ==>
              h.Fill(x, y, z).cells[i][j][k] == h.cells[i][j][k]
                + (if i == h.ax.FindBin(x) && j == h.ay.FindBin(y) && k == h.az.FindBin(z) then 1 else 0)
  {
    var a, b, c := h.ax.FindBin(x), h.ay.FindBin(y), h.az.FindBin(z);
    UpdateCell(h, a, b, c, h.cells[a][b][c] + 1);
  }

  /** One count in bin `(a, b, c)` and none elsewhere. */
  function Indicator(a: nat, b: nat, c: nat): (nat, nat, nat) -> nat
  {
    (i: nat, j: nat, k: nat) => if i == a && j == b && k == c then 1 else 0
  }

  lemma FillContents(h: Hist3, x: real, y: real, z: real)
    requires h.Valid()
    ensures forall i: nat, j: nat, k: nat :: i < h.ax.n + 2 && j < h.ay.n + 2 && k < h.az.n + 2 ==>
              h.Fill(x, y, z).Contents()(i, j, k)
                == h.Contents()(i, j, k) + Indicator(h.ax.FindBin(x), h.ay.FindBin(y), h.az.FindBin(z))(i, j, k)
  {
    var h' := h.Fill(x, y, z);
    FillCells(h, x, y, z);
    forall i: nat, j: nat, k: nat | h.InBox(i, j, k)
      ensures h'.Contents()(i, j, k) == h'.cells[i][j][k] && h.Contents()(i, j, k) == h.cells[i][j][k]
    {
      AtInBox(h, i, j, k);
      AtInBox(h', i, j, k);
    }
  }

  /** Adding one count in a single cell of the box raises the box sum by one. */
  lemma Sum3Bump(f: (nat, nat, nat) -> nat, g: (nat, nat, nat) -> nat, l: nat, m: nat, n: nat, a: nat, b: nat, c: nat)
    requires a < l && b < m && c < n
    requires forall i: nat, j: nat, k: nat :: i < l && j < m && k < n ==> g(i, j, k) == f(i, j, k) + Indicator(a, b, c)(i, j, k)
    ensures Sum3(l, m, n, g) == Sum3(l, m, n, f) + 1
  {
    var hit := Indicator(a, b, c);
    Sum3Add(l, m, n, f, hit, g);
    Sum3Single(l, m, n, a, b, c, hit);
  }

  /** A unit-weight Fill raises the total (under- and overflow included) by one. */
  lemma FillTotal(h: Hist3, x: real, y: real, z: real)
    requires h.Valid()
    ensures h.Fill(x, y, z).Total() == h.Total() + 1
  {
    FillContents(h, x, y, z);
    Sum3Bump(h.Contents(), h.Fill(x, y, z).Contents(), h.ax.n + 2, h.ay.n + 2, h.az.n + 2,
             h.ax.FindBin(x), h.ay.FindBin(y), h.az.FindBin(z));
  }

  /** SetBins or Reset: the given axes and every bin zero. */
  function Zero3(ax: Axis, ay: Axis, az: Axis): (h: Hist3)
    requires ax.Valid() && ay.Valid() && az.Valid()
    ensures h.Valid() && h.ax == ax && h.ay == ay && h.az == az
    ensures forall i: nat, j: nat, k: nat :: h.InBox(i, j, k) ==> h.cells[i][j][k] == 0
  {
    Hist3(ax, ay, az, seq(ax.n + 2, i => seq(ay.n + 2, j => seq(az.n + 2, k => 0))))
  }

  /** Two histograms with the same axes and the same contents in every bin are equal. */
  lemma Hist3Ext(a: Hist3, b: Hist3)
    requires a.Valid() && b.Valid() && a.ax == b.ax && a.ay == b.ay && a.az == b.az
    requires forall i: nat, j: nat, k: nat :: a.InBox(i, j, k) ==> a.cells[i][j][k] == b.cells[i][j][k]
    ensures a == b
  {
    forall i | 0 <= i < |a.cells|
      ensures a.cells[i] == b.cells[i]
    {
      forall j | 0 <= j < |a.cells[i]|
        ensures a.cells[i][j] == b.cells[i][j]
      {
        assert forall k :: 0 <= k < |a.cells[i][j]| ==> a.InBox(i, j, k);
      }
    }
  }

  lemma Zero3Total(ax: Axis, ay: Axis, az: Axis)
    requires ax.Valid() && ay.Valid() && az.Valid()
    ensures Zero3(ax, ay, az).Total() == 0
  {
    var h := Zero3(ax, ay, az);
    Sum3Zero(ax.n + 2, ay.n + 2, az.n + 2, h.Contents());
  }
}
