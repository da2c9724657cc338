/** The histogram-to-density conversion of the fitting macro: a one-dimensional
    histogram becomes an array of bin edges and an array of bin contents normalised
    to a probability density, the bin centres are taken from the edges, and a step
    curve and a legend are assembled for the plot. */
module FitXyz {
  import opened Sums
  import opened Histograms

  /** Sum of a finite sequence of reals, `s[0] + ... + s[|s|-1]`. */
  function SumR(s: seq<real>): real
  {
    if |s| == 0 then 0.0 else SumR(s[..|s| - 1]) + s[|s| - 1]
  }

  /** GetBinLowEdge of the `n + 1` consecutive indices starting at `first`. */
  function EdgesFrom(a: Axis, first: nat): (e: seq<real>)
    requires a.Valid()
  {
    seq(a.n + 1, i => a.LowEdge(first + i))
  }

  /** GetBinContent of the `m` consecutive indices starting at `first`, as reals. */
  function Cells(h: Hist1, first: nat, m: nat): (c: seq<real>)
    ensures |c| == m
  {
    seq(m, i requires 0 <= i < m => h.At(first + i) as real)
  }

  /** Every value divided by the sum `s` times the bin width `w`. */
  function Density(raw: seq<real>, s: real, w: real): (d: seq<real>)
    requires s != 0.0 && w != 0.0
    ensures |d| == |raw|
  {
    seq(|raw|, i requires 0 <= i < |raw| => raw[i] / (s * w))
  }

  /** The next low edge is one bin width further on. */
  lemma LowEdgeNext(a: Axis, i: int, j: int)
    requires a.Valid() && j == i + 1
    ensures a.LowEdge(i) + a.Width() == a.LowEdge(j)
  {
    var p, w := (i - 1) as real, a.Width();
    assert (j - 1) as real == p + 1.0;
    assert (p + 1.0) * w == p * w + w;
  }

  /** The edges of any window of consecutive bins are equally spaced, one bin width
      apart, and so strictly increasing. */
  lemma EdgesUniform(a: Axis, first: nat)
    requires a.Valid()
    ensures forall i :: 0 <= i < a.n ==> EdgesFrom(a, first)[i + 1] - EdgesFrom(a, first)[i] == a.Width()
    ensures forall i, j :: 0 <= i < j <= a.n ==> EdgesFrom(a, first)[i] < EdgesFrom(a, first)[j]
  {
    var e := EdgesFrom(a, first);
    forall i | 0 <= i < a.n
      ensures e[i + 1] - e[i] == a.Width()
    {
      LowEdgeNext(a, first + i, first + i + 1);
    }
    forall i, j | 0 <= i < j <= a.n
      ensures e[i] < e[j]
    {
      EdgesIncrease(a, first, i, j);
    }
  }

  lemma {:induction false} EdgesIncrease(a: Axis, first: nat, i: nat, j: nat)
    requires a.Valid() && i < j <= a.n
    ensures EdgesFrom(a, first)[i] < EdgesFrom(a, first)[j]
  {
    LowEdgeNext(a, first + j - 1, first + j);
    if i < j - 1 {
      EdgesIncrease(a, first, i, j - 1);
    }
  }

  /** The first two edges of a window are one bin width apart. */
  lemma FirstWidth(a: Axis, first: nat, w: real)
    requires a.Valid() && w == EdgesFrom(a, first)[1] - EdgesFrom(a, first)[0]
    ensures w == a.Width()
  {
    LowEdgeNext(a, first, first + 1);
  }

  /** Adding one more bin to a window adds its content to the window's sum. */
  lemma CellsNext(h: Hist1, first: nat, k: nat, j: nat)
    requires j == k + 1
    ensures SumR(Cells(h, first, j)) == SumR(Cells(h, first, k)) + h.At(first + k) as real
  {
    assert Cells(h, first, j)[..k] == Cells(h, first, k);
  }

  /** The sum of a window of bins is the difference of two partial sums of the histogram. */
  lemma {:induction false} CellsSum(h: Hist1, first: nat, m: nat)
    ensures SumR(Cells(h, first, m)) + h.PartialSum(first) as real == h.PartialSum(first + m) as real
  {
    if m > 0 {
      CellsSum(h, first, m - 1);
      CellsNext(h, first, m - 1, m);
    }
  }

  /** Dividing every term by `c` divides the sum by `c`. */
  lemma {:induction false} DensitySum(raw: seq<real>, s: real, w: real)
    requires s != 0.0 && w != 0.0
    ensures SumR(Density(raw, s, w)) == SumR(raw) / (s * w)
  {
    if |raw| > 0 {
      var m := |raw| - 1;
      assert Density(raw, s, w)[..m] == Density(raw[..m], s, w);
      DensitySum(raw[..m], s, w);
      DivAdd(SumR(raw[..m]), raw[m], s * w);
    }
  }

  lemma DivAdd(a: real, b: real, c: real)
    requires c != 0.0
    ensures a / c + b / c == (a + b) / c
  {
  }

  lemma RatioOne(s: real, w: real, c: real)
    requires s > 0.0 && w > 0.0 && c == s * w
    ensures c > 0.0 && (s / c) * w == 1.0
  {
  }

  /** Normalising by the sum times the bin width gives a density: its values times the
      bin width add up to one, and none is negative when no raw value is. */
  lemma DensityNormalised(raw: seq<real>, w: real)
    requires SumR(raw) > 0.0 && w > 0.0
    requires forall i :: 0 <= i < |raw| ==> raw[i] >= 0.0
    ensures SumR(Density(raw, SumR(raw), w)) * w == 1.0
    ensures forall i :: 0 <= i < |raw| ==> Density(raw, SumR(raw), w)[i] >= 0.0
  {
    var s := SumR(raw);
    RatioOne(s, w, s * w);
    DensitySum(raw, s, w);
  }

  /** The first loop of `h1_to_np` and the upper edge after it, reading the `n` bins
      from index `first` on: the low edges of those bins plus the upper edge of the
      last one, their contents, and the sum of the contents. */
  method ReadBins(h: Hist1, first: nat) returns (edges: seq<real>, content: array<real>, hsum: real)
    requires h.Valid()
    ensures fresh(content)
    ensures edges == EdgesFrom(h.axis, first) && content[..] == Cells(h, first, h.axis.n)
    ensures hsum == SumR(Cells(h, first, h.axis.n))
  {
    var n := h.axis.n;
    var e := new real[n + 1];
    content := new real[n];
    hsum := 0.0;
    var i := 0;
    while i < n
      invariant 0 <= i <= n
      invariant forall k :: 0 <= k < i ==> e[k] == h.axis.LowEdge(first + k)
      invariant forall k :: 0 <= k < i ==> content[k] == h.At(first + k) as real
      invariant hsum == SumR(Cells(h, first, i))
    {
      e[i] := h.axis.LowEdge(first + i);
      content[i] := h.At(first + i) as real;
      CellsNext(h, first, i, i + 1);
      hsum := hsum + content[i];
      i := i + 1;
    }
    e[n] := h.axis.LowEdge(first + n - 1) + h.axis.Width();
    LowEdgeNext(h.axis, first + n - 1, first + n);
    edges := e[..];
  }

  /** The second loop of `h1_to_np`: every content divided, in place, by the sum `s`
      times the bin width `w`. */
  method Normalise(content: array<real>, s: real, w: real)
    requires s != 0.0 && w != 0.0
    modifies content
    ensures content[..] == Density(old(content[..]), s, w)
  {
    var j := 0;
    while j < content.Length
      invariant 0 <= j <= content.Length
      invariant forall k :: 0 <= k < j ==> content[k] == old(content[k]) / (s * w)
      invariant forall k :: j <= k < content.Length ==> content[k] == old(content[k])
    {
      content[j] := content[j] / (s * w);
      j := j + 1;
    }
  }

  /** `h1_to_np` on the `n` bins from index `first` on: edges and contents, and the
      contents divided by their sum times the width of the first bin. When the sum is
      zero there is nothing to normalise by, and `ok` is false. */
  method BinsToDensity(h: Hist1, first: nat) returns (edges: seq<real>, content: seq<real>, ok: bool)
    requires h.Valid()
    ensures |edges| == h.axis.n + 1 && |content| == h.axis.n
    ensures edges == EdgesFrom(h.axis, first)
    ensures ok <==> SumR(Cells(h, first, h.axis.n)) != 0.0
    ensures ok ==> content == Density(Cells(h, first, h.axis.n), SumR(Cells(h, first, h.axis.n)), h.axis.Width())
    ensures !ok ==> content == Cells(h, first, h.axis.n)
  {
    var c, hsum;
    edges, c, hsum := ReadBins(h, first);
    var w := edges[1] - edges[0];
    FirstWidth(h.axis, first, w);
    ok := hsum != 0.0;
    if ok {
      Normalise(c, hsum, w);
    }
    content := c[..];
  }

  /** `h1_to_np` as written: it reads the histogram from index 0, the underflow bin,
      through index `n - 1`. The contents are the counts of those bins divided by
      their sum times the bin width; when that sum is not zero the result is a
      density, non-negative and summing to one over the bin width. */
  method H1ToNp(h: Hist1) returns (edges: seq<real>, content: seq<real>, ok: bool)
    requires h.Valid()
    ensures edges == EdgesFrom(h.axis, 0) && |content| == h.axis.n
    ensures ok <==> h.PartialSum(h.axis.n) > 0
    ensures ok ==> content == Density(Cells(h, 0, h.axis.n), h.PartialSum(h.axis.n) as real, h.axis.Width())
    ensures ok ==> SumR(content) * h.axis.Width() == 1.0 && forall i :: 0 <= i < |content| ==> content[i] >= 0.0
    ensures !ok ==> forall i :: 0 <= i < |content| ==> content[i] == 0.0
  {
    edges, content, ok := BinsToDensity(h, 0);
    var raw := Cells(h, 0, h.axis.n);
    SumFromZero(h, h.axis.n);
    if ok {
      DensityNormalised(raw, h.axis.Width());
    } else {
      ZeroSumCells(h, 0, h.axis.n);
    }
  }

  /** Counts are never negative, so a window of bins sums to zero only if every one
      of its bins is empty. */
  lemma {:induction false} ZeroSumCells(h: Hist1, first: nat, m: nat)
    requires SumR(Cells(h, first, m)) == 0.0
    ensures forall i :: 0 <= i < m ==> Cells(h, first, m)[i] == 0.0
  {
    if m > 0 {
      CellsNext(h, first, m - 1, m);
      CellsNonNegative(h, first, m - 1);
      ZeroSumCells(h, first, m - 1);
      assert forall i :: 0 <= i < m - 1 ==> Cells(h, first, m)[i] == Cells(h, first, m - 1)[i];
    }
  }

  lemma {:induction false} CellsNonNegative(h: Hist1, first: nat, m: nat)
    ensures SumR(Cells(h, first, m)) >= 0.0
  {
    if m > 0 {
      CellsNext(h, first, m - 1, m);
      CellsNonNegative(h, first, m - 1);
    }
  }

  /** The bins `0 .. m-1` sum to the partial sum of the first `m` bins. */
  lemma SumFromZero(h: Hist1, m: nat)
    ensures SumR(Cells(h, 0, m)) == h.PartialSum(m) as real
  {
    CellsSum(h, 0, m);
  }

  /** The regular bins sum to the bins up to the last regular one, less the underflow. */
  lemma SumRegular(h: Hist1)
    requires h.Valid()
    ensures h.PartialSum(h.axis.n + 1) >= h.cells[0]
    ensures SumR(Cells(h, 1, h.axis.n)) == (h.PartialSum(h.axis.n + 1) - h.cells[0]) as real
  {
    CellsSum(h, 1, h.axis.n);
    CellsNonNegative(h, 1, h.axis.n);
    assert h.PartialSum(1) == h.cells[0];
  }

  /** The conversion `h1_to_np` is evidently meant to perform: the regular bins `1..n`.
      Its edges run exactly from the low to the high end of the axis, every regular
      bin's count is read, and the sum it normalises by is the number of entries in
      the regular bins. */
  method H1ToNpRegular(h: Hist1) returns (edges: seq<real>, content: seq<real>, ok: bool)
    requires h.Valid()
    ensures edges == EdgesFrom(h.axis, 1) && |content| == h.axis.n
    ensures edges[0] == h.axis.lo && edges[h.axis.n] == h.axis.hi
    ensures ok <==> h.PartialSum(h.axis.n + 1) > h.cells[0]
    ensures ok ==> content == Density(Cells(h, 1, h.axis.n), (h.PartialSum(h.axis.n + 1) - h.cells[0]) as real, h.axis.Width())
    ensures ok ==> SumR(content) * h.axis.Width() == 1.0 && forall i :: 0 <= i < |content| ==> content[i] >= 0.0
    ensures !ok ==> forall i :: 0 <= i < |content| ==> content[i] == 0.0
  {
    edges, content, ok := BinsToDensity(h, 1);
    AxisSpan(h.axis);
    var raw := Cells(h, 1, h.axis.n);
    SumRegular(h);
    if ok {
      DensityNormalised(raw, h.axis.Width());
    } else {
      ZeroSumCells(h, 1, h.axis.n);
    }
  }

  /** The low edge of bin 1 is the low end of the axis and that of the overflow bin
      its high end. */
  lemma AxisSpan(a: Axis)
    requires a.Valid()
    ensures a.LowEdge(1) == a.lo && a.LowEdge(a.n + 1) == a.hi
  {
    var n, w := a.n as real, a.Width();
    assert ((a.n + 1) - 1) as real == n;
    assert n * w == a.hi - a.lo;
  }

  /** A two-bin histogram on `[0, 2)` with five entries in its last regular bin: read
      as written, the window starts at the underflow edge `-1` and ends at `1`, and its
      counts are all zero, so no density comes out; the regular bins hold the five
      entries on `[0, 2)`. */
  lemma AsWrittenSkipsLastBin()
    ensures var h := Hist1(Axis(2, 0.0, 2.0), [0, 0, 5, 0]);
            && EdgesFrom(h.axis, 0) == [-1.0, 0.0, 1.0]
            && Cells(h, 0, 2) == [0.0, 0.0] && SumR(Cells(h, 0, 2)) == 0.0
            && EdgesFrom(h.axis, 1) == [0.0, 1.0, 2.0]
            && Cells(h, 1, 2) == [0.0, 5.0] && SumR(Cells(h, 1, 2)) == 5.0
  {
    var h := Hist1(Axis(2, 0.0, 2.0), [0, 0, 5, 0]);
    assert h.axis.Width() == 1.0;
    assert EdgesFrom(h.axis, 0) == [-1.0, 0.0, 1.0];
    assert EdgesFrom(h.axis, 1) == [0.0, 1.0, 2.0];
    assert Cells(h, 0, 2) == [0.0, 0.0];
    assert Cells(h, 1, 2) == [0.0, 5.0];
    assert SumR([0.0]) == 0.0;
    assert SumR([0.0, 5.0]) == SumR([0.0]) + 5.0;
    assert [0.0, 0.0][..1] == [0.0] && [0.0, 5.0][..1] == [0.0];
  }

  /** The bin centres: the midpoint of every pair of neighbouring edges. */
  function Centers(edges: seq<real>): (c: seq<real>)
    ensures |c| == if |edges| == 0 then 0 else |edges| - 1
  {
    if |edges| == 0 then [] else seq(|edges| - 1, i requires 0 <= i < |edges| - 1 => 0.5 * (edges[i + 1] + edges[i]))
  }

  /** With strictly increasing edges every centre lies strictly inside its bin, at
      equal distance from both edges. */
  lemma CentersInside(edges: seq<real>)
    requires forall i :: 0 <= i < |edges| - 1 ==> edges[i] < edges[i + 1]
    ensures forall i :: 0 <= i < |Centers(edges)| ==>
              edges[i] < Centers(edges)[i] < edges[i + 1] && Centers(edges)[i] - edges[i] == edges[i + 1] - Centers(edges)[i]
  {
    var c := Centers(edges);
    forall i | 0 <= i < |c|
      ensures edges[i] < c[i] < edges[i + 1] && c[i] - edges[i] == edges[i + 1] - c[i]
    {
      Midpoint(edges[i], edges[i + 1], c[i]);
    }
  }

  lemma Midpoint(lo: real, hi: real, m: real)
    requires lo < hi && m == 0.5 * (hi + lo)
    ensures lo < m < hi && m - lo == hi - m
  {
  }

  /** The centres of the edges `h1_to_np` returns are half a bin width above each low edge. */
  lemma CentersOfEdges(a: Axis, first: nat)
    requires a.Valid()
    ensures |Centers(EdgesFrom(a, first))| == a.n
    ensures forall i :: 0 <= i < a.n ==> Centers(EdgesFrom(a, first))[i] == a.LowEdge(first + i) + 0.5 * a.Width()
  {
    EdgesUniform(a, first);
  }

  /** The x vertices of the step curve over the first `k` bins: both edges of every bin. */
  function StepXs(edges: seq<real>, k: nat): (r: seq<real>)
    requires k < |edges|
    ensures |r| == 2 * k
  {
    if k == 0 then [] else StepXs(edges, k - 1) + [edges[k - 1], edges[k]]
  }

  /** The y vertices of the step curve over the first `k` bins: every content twice. */
  function StepYs(content: seq<real>, k: nat): (r: seq<real>)
    requires k <= |content|
    ensures |r| == 2 * k
  {
    if k == 0 then [] else StepYs(content, k - 1) + [content[k - 1], content[k - 1]]
  }

  /** Vertex `2i` of the step curve is the low edge of bin `i` and vertex `2i + 1` its
      high edge, both at the height of bin `i`. */
  lemma {:induction false} StepAt(edges: seq<real>, content: seq<real>, k: nat)
    requires k < |edges| && k <= |content|
    ensures forall i :: 0 <= i < k ==> StepXs(edges, k)[2 * i] == edges[i] && StepXs(edges, k)[2 * i + 1] == edges[i + 1]
    ensures forall i :: 0 <= i < k ==> StepYs(content, k)[2 * i] == content[i] == StepYs(content, k)[2 * i + 1]
  {
    if k > 0 {
      StepAt(edges, content, k - 1);
      var xs, ys := StepXs(edges, k), StepYs(content, k);
      assert xs[..2 * (k - 1)] == StepXs(edges, k - 1);
      assert ys[..2 * (k - 1)] == StepYs(content, k - 1);
    }
  }

  /** Over increasing edges the x vertices of the step curve never go back. */
  lemma StepXsSorted(edges: seq<real>, k: nat)
    requires k < |edges|
    requires forall i :: 0 <= i < |edges| - 1 ==> edges[i] < edges[i + 1]
    ensures forall p, q :: 0 <= p < q < 2 * k ==> StepXs(edges, k)[p] <= StepXs(edges, k)[q]
  {
    var xs := StepXs(edges, k);
    StepAt(edges, edges[..k], k);
    forall p, q | 0 <= p < q < 2 * k
      ensures xs[p] <= xs[q]
    {
      var i, j := p / 2, q / 2;
      assert p == 2 * i + p % 2 && q == 2 * j + q % 2;
      var ep, eq := i + p % 2, j + q % 2;
      EdgesOrdered(edges, ep, eq);
      assert xs[p] == edges[ep];
      assert xs[q] == edges[eq];
    }
  }

  lemma {:induction false} EdgesOrdered(edges: seq<real>, i: nat, j: nat)
    requires i <= j < |edges|
    requires forall k :: 0 <= k < |edges| - 1 ==> edges[k] < edges[k + 1]
    ensures edges[i] <= edges[j]
  {
    if i < j {
      EdgesOrdered(edges, i, j - 1);
    }
  }

  /** `plot_np_step`: the vertices of the step curve through the bin contents. */
  method PlotNpStep(edges: seq<real>, content: seq<real>) returns (ix: seq<real>, iy: seq<real>)
    requires |content| < |edges|
    ensures ix == StepXs(edges, |content|) && iy == StepYs(content, |content|)
  {
    ix, iy := [], [];
    var i := 0;
    while i < |content|
      invariant 0 <= i <= |content|
      invariant ix == StepXs(edges, i) && iy == StepYs(content, i)
    {
      ix := ix + [edges[i]];
      ix := ix + [edges[i + 1]];
      iy := iy + [content[i]];
      iy := iy + [content[i]];
      i := i + 1;
    }
  }

  /** The entries of a plot legend: handles and their labels, kept side by side. */
  class Legend<Handle> {
    var items: seq<Handle>
    var data: seq<string>

    predicate Valid()
      reads this
    {
      |items| == |data|
    }

    /** The legend's entries as handle-label pairs, in the order they were added. */
    function Entries(): (r: seq<(Handle, string)>)
      reads this
      requires Valid()
      ensures |r| == |items|
    {
      var its, ds := items, data;
      seq(|its|, i requires 0 <= i < |its| => (its[i], ds[i]))
    }

    constructor ()
      ensures Valid() && items == [] && data == []
    {
      items := [];
      data := [];
    }

    /** `add_entry`: appends the handle and its label together. */
    method AddEntry(i: Handle, d: string)
      requires Valid()
      modifies this
      ensures Valid() && items == old(items) + [i] && data == old(data) + [d]
      ensures Entries() == old(Entries()) + [(i, d)]
    {
      items := items + [i];
      data := data + [d];
    }
  }
}
