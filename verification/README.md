# eic_beam_shape: bunch overlap counting, modelled in Dafny

The system simulates two beam bunches crossing at an interaction point. Each
`bunch` is a cloud of particle positions with a speed and a direction of flight.
After every binning change and every move, the bunch rebuilds a 3-D count
histogram from its positions. The `sim` class keeps an ordered list of bunches.
For every 3-D bin it takes the smaller of the first two bunches' counts (the
"pairs"). It projects those into an x-y grid `hxy` and a z grid `hz`. Over a run
of `nstep` time steps it adds these grids into the time integrals `hxt`, `hyt`
and `hzt`. The fitting macro turns such an integral into bin edges and a
normalised density, computes the bin centres, builds the vertices of a step
curve, and collects legend entries.

The model has six modules:

- `Sums` (sums.dfy): finite sums of natural-valued functions over one, two and
  three indices, with the rearrangement lemmas the counting proofs need.
- `Histograms` (histograms.dfy): the parts of ROOT's fixed-bin axes and 1-, 2- and
  3-D histograms the code relies on. Bin 0 is the underflow bin, bins `1..n` are
  regular and `n+1` is the overflow bin. Contents are unit-weight counts, kept
  as `nat`.
- `Bunches` (bunch.dfy): the `bunch` class, together with its state as a value
  (`BunchState`) and the functions that say what `move` and `set_bins` compute.
- `Pairs` (pairs.dfy): the pair grids as functions of the two bunch histograms,
  and what the loops of `make_pairs` build up step by step.
- `Simulation` (sim.dfy): the `sim` class. Its methods are proved against
  `MovedAll`, `RebinnedAll`, `PairsXY` and `PairsZ`.
- `FitXyz` (fit_xyz.dfy): `h1_to_np`, the bin centres, `plot_np_step` and the
  legend's `add_entry`.

`Bunch` and `Sim` are classes whose methods update their fields in loops.
Histograms are values held in those fields; the methods reassign them.
`set_bins` gives the time integrals new axes without resetting them, so their
old counts survive where the bin indices still exist (`Histograms.Resized`). The
three integrals start empty and every step adds the same number of pairs to
each, so their totals agree until a later `set_bins` drops some bins.
`h1_to_np` fills and normalises an `array<real>` in place.

## Model

| member | source | states |
|---|---|---|
| Histograms.FindBinCorrect | src/bunch.cxx:102-105 | A coordinate below the axis goes to the underflow bin (iff), one at or above its upper end goes to the overflow bin (iff), and any other goes to the regular bin whose low and high edges bracket it |
| Histograms.AddTotal | src/sim.cxx:106-107 | AddBinContent raises the histogram total by exactly the added amount |
| Histograms.FillCells | src/bunch.cxx:104 | A unit Fill adds one count to the bin of the point and changes no other bin |
| Histograms.FillTotal | src/bunch.cxx:104 | A unit Fill raises the total, underflow and overflow included, by one |
| Histograms.Hist1.Maximum | include/sim.h:32 | GetMaximum of a 1-D histogram: an upper bound of every regular bin that some regular bin attains |
| Histograms.Hist2.Maximum | src/sim.cxx:52 | GetMaximum of the x-y grid: an upper bound of every regular bin that some regular bin attains |
| Histograms.Zero3Total | src/bunch.cxx:100 | Reset leaves a 3-D histogram with total zero |
| Histograms.ResizedCells | src/sim.cxx:54-56 | New binning without a Reset keeps every old cell that still fits and starts any new cell at zero |
| Histograms.ResizedKeeps | src/sim.cxx:54-56 | With the number of bins unchanged, new binning keeps every count of a time integral |
| Histograms.ResizedEmpty | src/sim.cxx:54-56 | New binning of an empty integral gives an empty integral on the new axis |
| Bunches.MoveZero | src/bunch.cxx:113-119 | A move by zero time leaves every point where it was |
| Bunches.MoveTwice | src/bunch.cxx:113-119 | Moves by `a` and then `b` give the same points as one move by `a + b` |
| Bunches.MoveBack | src/bunch.cxx:113-119 | A move by `a` followed by a move by `-a` restores the points |
| Bunches.DisplacementLength | src/bunch.cxx:113-114 | With a unit direction, one move shifts every point by a distance of `vel*dt` |
| Bunches.RotYIsometry | src/bunch.cxx:67-70 | A rotation about y keeps each point's y and its distance from the y axis |
| Bunches.RotYInverse | src/bunch.cxx:67-70 | Rotating by the opposite angle undoes a rotation about y |
| Bunches.RotYCompose | src/bunch.cxx:67-70 | Two rotations about y compose into one rotation by the summed angle |
| Bunches.BinningCounts | src/bunch.cxx:100-105 | After the reset and one Fill per point, every bin holds exactly the number of points that fall into it |
| Bunches.BinningTotal | src/bunch.cxx:100-105 | The rebuilt histogram holds one count per point, underflow and overflow included |
| Bunches.BinningStep | src/bunch.cxx:102-105 | Each pass of the fill loop extends the binning of the points seen so far by the next point |
| Bunches.BunchState.Moved | src/bunch.cxx:110-129 | After `move`, the histogram is the binning of the moved points on the same axes, its total equals the number of points, and the speed, direction and colour are unchanged |
| Bunches.BunchState.Rebinned | src/bunch.cxx:93-107 | After `set_bins`, the same points are binned on the new axes with total equal to the number of points; the speed, direction and colour are unchanged |
| Bunches.MovedTwice | src/bunch.cxx:110-129 | Two moves of a bunch state equal one move by the summed time |
| Bunches.MovedBack | src/bunch.cxx:110-129 | Moving a binned bunch forth and back by the same time restores its whole state |
| Bunches.RebinnedSame | src/bunch.cxx:93-107 | Re-binning a binned bunch on the axes it already has changes nothing |
| Bunches.Bunch.constructor | src/bunch.cxx:26-60 | Exactly `npart` points, none when `npart <= 0`, in sampling order; an empty default histogram; blue marker |
| Bunches.Bunch.RotateY | src/bunch.cxx:63-72 | Given the cosine and sine of the angle, every point is rotated about y in place and in order; the histogram, speed, direction and colour are unchanged |
| Bunches.Bunch.SetColor | include/bunch.h:17 | Only the marker colour changes |
| Bunches.Bunch.SetKinematics | src/bunch.cxx:75-90 | The speed becomes `|p|/en` times the speed of light, the direction is stored exactly as given, and points, histogram and colour are unchanged |
| Bunches.Bunch.Refill | src/bunch.cxx:100-105 | The histogram becomes the binning of the current points on the given axes, with total equal to the number of points; nothing else changes |
| Bunches.Bunch.SetBins | src/bunch.cxx:93-107 | The new state is the old state re-binned on the new axes |
| Bunches.Bunch.Move | src/bunch.cxx:110-129 | The new state is the old state moved by `dt`: each point is shifted in place by `vel*dt*dir` and the histogram is rebuilt |
| Bunches.Bunch.GetHxyz | include/bunch.h:24 | Returns the bunch's own histogram, which holds one count per point whenever it was built from the current points |
| Pairs.Min | src/sim.cxx:77 | The smaller of two counts: at most each of them and equal to one of them |
| Pairs.PairsXYTotal | src/sim.cxx:70-84 | The x-y pair grid's bins `0..nx` by `0..ny` sum to the pair counts over the whole `0..n` box |
| Pairs.PairsZTotal | src/sim.cxx:70-84 | The z pair grid's bins `0..nz` sum to the pair counts over the same box |
| Pairs.PairsBalanced | src/sim.cxx:79-80 | The x-y grid and the z grid hold the same number of pairs |
| Pairs.PairsSwap | src/sim.cxx:74-77 | Swapping the two bunches leaves both pair grids unchanged |
| Pairs.PairsBounded | src/sim.cxx:74-77 | Pairs summed over any box of bins never exceed either bunch's histogram total |
| Pairs.PairsBoundedBy | src/sim.cxx:74-77 | Pairs summed over any box of bins never exceed the total of the named bunch |
| Pairs.PairsZBounded | src/sim.cxx:70-77 | The z pair grid holds at most the smaller of the two bunches' totals |
| Simulation.BinnedPairsBounded | src/sim.cxx:61-86 | For two binned point sets, the pairs are at most the smaller histogram total |
| Simulation.PairsAtMostParticles | src/sim.cxx:61-86 | For two binned point sets, the pairs are at most the smaller particle count |
| Simulation.MovedAllTwice | src/sim.cxx:28-33 | Two moves of every bunch equal one move by the summed time |
| Simulation.ElapsedAfter | src/sim.cxx:93-101 | After the pre-roll and `i` steps, the bunches have moved by `tmin - dt + i*dt` |
| Simulation.EvolutionEnd | src/sim.cxx:93-101 | With `dt = (tmax - tmin)/nstep`, the last step ends at `tmax - dt` |
| Simulation.MovedAllNext | src/sim.cxx:97-101 | Step `k + 1` is step `k` followed by one move of `dt` |
| Simulation.MovedAllEnd | src/sim.cxx:93-101 | After all `nstep` steps, every bunch has moved by `tmax - dt` |
| Simulation.PairLine | src/sim.cxx:72-82 | The innermost loop adds the pairs of line `(ix, iy, 0..nz)` to x-y bin `(ix, iy)` and to each z bin |
| Simulation.PairSlice | src/sim.cxx:71-83 | The middle loop adds every line of slice `ix` |
| Simulation.PairGrids | src/sim.cxx:63-85 | From zeroed grids, the three loops produce exactly `PairsXY` and `PairsZ` over bins `0..n` (overflow excluded), and the two grids hold equal totals |
| Simulation.IntegrateRow | src/sim.cxx:104-109 | One row adds its row sum to `hxt[ix]` and each of its bins to `hyt[iy]`; every other bin is unchanged and both totals rise by the row sum |
| Simulation.IntegrateXY | src/sim.cxx:103-110 | Row sums of bins `0..n` go into `hxt` and column sums into `hyt`, overflow untouched; both totals rise by the grid total |
| Simulation.IntegrateZ | src/sim.cxx:112-116 | Bins `0..n` of `hz` are added bin-wise into `hzt`, overflow untouched; the total rises by theirs |
| Simulation.MoveAll | src/sim.cxx:30-33 | Every bunch moves exactly once by `dt`, in list order |
| Simulation.NewGrids | src/sim.cxx:47-56 | The grids after new binning: pairs on the new axes with equal totals in both grids, the maximum of the x-y grid, and the time integrals given the new axes without a reset |
| Simulation.BinAll | src/sim.cxx:42-45 | Every bunch is re-binned on the same new axes |
| Simulation.Sim.constructor | src/sim.cxx:23-25 | No bunches, and default empty grids and integrals |
| Simulation.Sim.AddBunch | include/sim.h:15 | The bunch is appended at the end; earlier bunches, grids and integrals are unchanged |
| Simulation.Sim.GetBunch | include/sim.h:24 | Returns the `id`-th bunch added |
| Simulation.Sim.GetHzMax | include/sim.h:32 | The largest pair count among the regular z bins |
| Simulation.Sim.MakePairs | src/sim.cxx:61-86 | The pair grids become those of the first two bunches on unchanged axes; bunches, integrals and `xymax` are untouched |
| Simulation.Sim.Accumulate | src/sim.cxx:103-116 | Row sums of `hxy` are added into `hxt`, column sums into `hyt` and `hz` into `hzt` over bins `0..n`; each of the three totals rises by the same number of pairs |
| Simulation.Sim.Move | src/sim.cxx:28-37 | Every bunch moves by `dt` and the pairs are recomputed; the integrals are unchanged |
| Simulation.Sim.ResetGrids | src/sim.cxx:47-56 | The grids get the new axes and the pairs on them, `xymax` is the x-y maximum, and the integrals take the new axes keeping the old counts that fit |
| Simulation.Sim.SetBins | src/sim.cxx:40-58 | Every bunch is re-binned, the grids take the new axes and the pairs on them, `xymax` is the new x-y maximum, and the integrals take the new axes without a reset, keeping the old counts that fit |
| Simulation.Sim.SetBinsDefault | include/sim.h:18-19 | Everything `set_bins` guarantees, with 60 bins on [-2, 2] in x and y and 60 bins on [-200, 200] in z |
| Simulation.Sim.Step | src/sim.cxx:101-116 | One step: all bunches move by `dt`, the pairs are recomputed and added bin-wise into the integrals, whose totals each rise by the same number of pairs |
| Simulation.Sim.Advance | src/sim.cxx:97-118 | Step `k + 1` takes the bunches from their position after step `k` to their position after step `k + 1`; no integral bin shrinks, and the three integrals gain the same number of pairs |
| Simulation.Sim.Steps | src/sim.cxx:97-118 | After the `nstep` steps the bunches have moved by the elapsed time, the pairs are current, no integral bin shrinks, and the three integrals gain the same number of pairs |
| Simulation.Sim.RunEvolution | src/sim.cxx:89-118 | After the pre-roll and `nstep` steps, every bunch has moved by `tmax - dt`; the pairs are current, no integral bin shrinks, and the three integrals gain the same number of pairs |
| FitXyz.EdgesUniform | macro/fit_xyz.py:257-263 | The returned edges are one bin width apart and strictly increasing |
| FitXyz.FirstWidth | macro/fit_xyz.py:267 | `edges[1] - edges[0]` is the axis's bin width |
| FitXyz.CellsSum | macro/fit_xyz.py:257-260 | The running sum of the read bins is a difference of two partial sums of the histogram |
| FitXyz.DensitySum | macro/fit_xyz.py:266-267 | Dividing every content by `hsum` times the width divides their sum the same way |
| FitXyz.DensityNormalised | macro/fit_xyz.py:266-267 | With non-negative counts and a positive sum, the density is non-negative and its sum times the bin width is 1 |
| FitXyz.ZeroSumCells | macro/fit_xyz.py:255-260 | The read bins sum to zero only if every one of them is zero |
| FitXyz.ReadBins | macro/fit_xyz.py:253-263 | `nbins + 1` low edges from index `first`, the upper edge computed from the last low edge plus the width, the `nbins` contents, and `hsum` as their sum |
| FitXyz.Normalise | macro/fit_xyz.py:266-267 | Every content is divided in place by `hsum*(edges[1]-edges[0])` |
| FitXyz.BinsToDensity | macro/fit_xyz.py:249-269 | Edges and contents have lengths `nbins + 1` and `nbins`; when the sum is non-zero the contents are the density, otherwise the raw counts |
| FitXyz.H1ToNp | macro/fit_xyz.py:249-269 | As written, reading from index 0: the edges, and a density whose sum times the width is 1 when the sum of bins `0..nbins-1` is positive; all zeros otherwise |
| FitXyz.SumRegular | macro/fit_xyz.py:255-260 | The regular bins sum to the bins up to the last regular one, less the underflow bin |
| FitXyz.H1ToNpRegular | macro/fit_xyz.py:249-269 | Reading the regular bins `1..nbins`: the edges run from the axis's low end to its high end, and the contents form a normalised density of the regular counts |
| FitXyz.AxisSpan | macro/fit_xyz.py:263 | The low edge of bin 1 is the axis minimum and that of bin `n + 1` is its maximum |
| FitXyz.AsWrittenSkipsLastBin | macro/fit_xyz.py:257-263 | On a two-bin histogram with all its entries in the last regular bin, the code as written reads only zeros, while the regular bins hold five |
| FitXyz.CentersInside | macro/fit_xyz.py:43 | One centre per bin, each strictly inside its bin and equally far from both edges |
| FitXyz.CentersOfEdges | macro/fit_xyz.py:43 | The centres of the returned edges lie half a bin width above each low edge |
| FitXyz.StepAt | macro/fit_xyz.py:276-282 | Vertex `2i` of the step curve is edge `i`, vertex `2i+1` is edge `i+1`, and both y vertices are `content[i]` |
| FitXyz.StepXsSorted | macro/fit_xyz.py:276-282 | Over increasing edges the x vertices of the step curve never decrease |
| FitXyz.PlotNpStep | macro/fit_xyz.py:274-284 | The appending loop yields the step curve's `2*len(content)` x and y vertices |
| FitXyz.Legend.constructor | macro/fit_xyz.py:313-315 | A new legend has no handles and no labels |
| FitXyz.Legend.AddEntry | macro/fit_xyz.py:316-318 | The handle and the label are appended together; the legend's entry list grows by that one pair at the end |

## Left out

- Random sampling of the initial points, and the `sqrt` width formulas of the `bunch` constructor, are not modelled. The constructor takes the sampler `draw` as a parameter.
- Trigonometry is not modelled. `Bunch.RotateY` takes the cosine and sine of the angle (`a*1e-3` rad) as parameters instead of the angle in mrad.
- `Bunches.Bunch.SetKinematics` requires `en != 0` because the model has no division by zero; the source would store an infinite or NaN speed. It also requires the direction to be a unit vector, as the header documents, although the source does not check this.
- `Bunches.Bunch.constructor` starts `vel` at 0, whereas the source leaves it uninitialised until `set_kinematics`.
- Floating point is modelled as exact reals. Rounding in positions, edges, the density and `dt` is not captured.
- Histograms are values held in class fields, and the methods reassign them. `get_hxyz` returns the histogram by value, which is harmless because no caller writes through the reference. The `TGraph` of a bunch is reduced to its marker colour.
- The `Simulation.Sim` methods require that no bunch is listed twice (`Distinct`). The source does not check this; a bunch added twice would be moved twice per `move`.
- `Simulation.Sim.RunEvolution` states the final positions, that the pairs are current, that the three integrals gain the same number of pairs and that no integral bin shrinks. It does not state the integrals' exact sums across all steps; `Simulation.Sim.Step` states each step's exact bin-wise increment.
- `Simulation.Sim.RunEvolution` requires `nstep > 0`; the source divides by `nstep` without checking.
- `Simulation.Sim.SetBins` and `Bunches.Bunch.SetBins` (and `Simulation.Sim.ResetGrids`, `Simulation.NewGrids`, `Simulation.BinAll`) require every axis to have at least one bin and a low end below its high end; the source passes the arguments to ROOT's SetBins unchecked.
- `Simulation.Sim.GetHzMax` returns the count as a `nat`; the conversion of the `double` maximum to `int` is exact for counts and is not modelled separately.
- `Simulation.Sim.GetBunch` requires `0 <= id < |bunches|`; the source does not check bounds.
- `Simulation.Sim.MakePairs` and the methods that call it require at least two bunches, because the source reads `bunches[0]` and `bunches[1]` unchecked.
- `FitXyz.BinsToDensity`, `FitXyz.H1ToNp` and `FitXyz.H1ToNpRegular` report a zero sum with `ok == false` and return the raw zero contents; the source divides by zero there and returns NaN contents.
- `FitXyz.PlotNpStep` requires more edges than contents; with fewer, the source stops with an IndexError before plotting.
- The `plt.plot` call of `plot_np_step` and `legend.draw` are not modelled; only the vertex and entry lists are.
- The `curve_fit` Gaussian fit, all drawing, the `TFile` write at the end of `run_evolution`, console output and the `extern "C"` wrappers are not modelled. They are library calls, I/O or plain forwarding.
- `bunch::print`, `bunch::draw*`, `sim::draw`, `sim::draw_z` and `sim::draw_xt`/`draw_yt`/`draw_zt` are not modelled; they only draw or print.
- `sim::draw_xy` is not modelled. Besides drawing, it stores `xymax` as the displayed maximum of `hxy` (SetMaximum), and a stored maximum survives the Reset in `make_pairs` and is what GetMaximum then returns. `Simulation.Sim.SetBins` therefore assumes `set_bins` is not called after `draw_xy`; in that case the source's `xymax` keeps the old stored value instead of the new grid's maximum.
- The helper methods `Simulation.NewGrids`, `Simulation.Sim.ResetGrids`, `Simulation.Sim.Steps`, `Simulation.Sim.Advance`, `FitXyz.ReadBins` and `FitXyz.Normalise` split single source functions into smaller proved steps; they add no behaviour of their own.

## Findings

| source | as written | input that shows it | evidently intended | confidence | as-written member | corrected member |
|---|---|---|---|---|---|---|
| macro/fit_xyz.py:257-263 | The loop reads histogram indices `0..nbins-1`. This includes the underflow bin 0 and drops the last regular bin `nbins`; the edges start one bin width below the axis minimum | A 2-bin axis on [0, 2) whose only entries are 5 counts in bin 2: the code reads contents [0, 0] with sum 0, where the regular bins hold [0, 5] | Read the regular bins `1..nbins`, so that the edges run from the axis minimum to its maximum | not executed | FitXyz.AsWrittenSkipsLastBin | FitXyz.H1ToNpRegular |
