/** The earlier density helpers (code/src/scripts/helpers/density_helpers.py):
    a grid whose adjusted bounds are whole multiples of the resolution, the
    bins within reach of the model counted at a fixed resolution of 0.1, and
    the available volume. */
module LegacyDensity {
  import opened Wrappers
  import opened Vectors
  import opened Reals
  import opened DensityGrid
  import opened DensityVolume

  /** `calculate_no_bins` of this version: `ceil(|lo + res/2| / res)` bins
      below the origin bin and `ceil(|hi - res/2| / res)` above it, the
      bounds at whole multiples of the resolution.  The adjusted range spans
      one bin fewer than the bins counted. */
  function CalculateNoBins(resolution: real, lo: real, hi: real): (a: Axis)
    requires 0.0 < resolution
    ensures 1 <= a.count
    ensures a.maximum - a.minimum == (a.count - 1) as real * resolution
    ensures a.minimum <= 0.0 <= a.maximum
  {
    WholeAxis(Ceil(Abs(lo + 0.5 * resolution) / resolution), Ceil(Abs(hi - 0.5 * resolution) / resolution), resolution)
  }

  /** `neg` bins below and `pos` bins above the origin, the bounds at
      `-neg r` and `pos r`. */
  function WholeAxis(neg: nat, pos: nat, r: real): (a: Axis)
    requires 0.0 < r
    ensures 1 <= a.count
    ensures a.maximum - a.minimum == (a.count - 1) as real * r
    ensures a.minimum <= 0.0 <= a.maximum
  {
    assert (neg + pos) as real == neg as real + pos as real;
    assert 0.0 <= neg as real * r && 0.0 <= pos as real * r;
    Axis(neg + pos + 1, -(neg as real) * r, pos as real * r)
  }

  /** Entry `k` of a linspace. */
  lemma LinspaceAt(start: real, stop: real, num: nat, k: nat)
    requires k < num
    ensures Linspace(start, stop, num)[k] == start + k as real * ((stop - start) / num as real)
  {
  }

  /** The bin starts along one axis of this version are
      `(count - 1) * res / count` apart, never `res`: the linspace over a span
      of `count - 1` bins with `endpoint=False` divides it into `count` steps. */
  lemma StartsSpacing(resolution: real, lo: real, hi: real, k: nat)
    requires 0.0 < resolution
    requires k + 1 < CalculateNoBins(resolution, lo, hi).count
    ensures var a := CalculateNoBins(resolution, lo, hi);
            var n := a.count as real;
            AxisStarts(a)[k + 1] - AxisStarts(a)[k] == (n - 1.0) * resolution / n &&
            AxisStarts(a)[k + 1] - AxisStarts(a)[k] < resolution
  {
    AxisSpacing(CalculateNoBins(resolution, lo, hi), resolution, k);
  }

  /** Consecutive starts of an axis spanning `count - 1` bins of width `r`. */
  lemma AxisSpacing(a: Axis, r: real, k: nat)
    requires 0.0 < r && k + 1 < a.count
    requires a.maximum - a.minimum == (a.count - 1) as real * r
    ensures var n := a.count as real;
            AxisStarts(a)[k + 1] - AxisStarts(a)[k] == (n - 1.0) * r / n &&
            AxisStarts(a)[k + 1] - AxisStarts(a)[k] < r
  {
    var n := a.count as real;
    var step := (a.maximum - a.minimum) / n;
    LinspaceAt(a.minimum, a.maximum, a.count, k);
    LinspaceAt(a.minimum, a.maximum, a.count, k + 1);
    assert (k + 1) as real * step == k as real * step + step;
    DivMul(a.maximum - a.minimum, n);
    ShorterStep(step, n, r);
  }

  /** `step * n == (n - 1) r` makes the step `(n - 1) r / n`, shorter
      than `r`. */
  lemma ShorterStep(step: real, n: real, r: real)
    requires 1.0 <= n && 0.0 < r && step * n == (n - 1.0) * r
    ensures step == (n - 1.0) * r / n && step < r
  {
    DivMul((n - 1.0) * r, n);
    CancelNonZero(step, (n - 1.0) * r / n, n);
    CancelLess(step, r, n);
  }

  /** A product of positive factors is positive. */
  lemma MulPos(a: real, b: real)
    requires 0.0 < a && 0.0 < b
    ensures 0.0 < a * b
  {
  }

  /** Cancelling a positive factor in a strict inequality. */
  lemma CancelLess(x: real, y: real, n: real)
    requires 0.0 < n && x * n < y * n
    ensures x < y
  {
  }

  /** `y n` exceeding `x n` by a positive gap puts `x` below `y`. */
  lemma CancelGap(x: real, y: real, n: real, gap: real)
    requires 0.0 < n && 0.0 < gap && y * n == x * n + gap
    ensures x < y
  {
    CancelLess(x, y, n);
  }

  /** An instance: with resolution 1 and points from -1 to 1 the starts are
      -1, -1/3 and 1/3, so the bins [-1, 0] and [-1/3, 2/3] overlap and both
      hold -0.2. */
  lemma OverlappingBins()
    ensures var a := CalculateNoBins(1.0, -1.0, 1.0);
            var s := AxisStarts(a);
            a.count == 3 && s == [-1.0, -1.0 / 3.0, 1.0 / 3.0] &&
            s[0] <= -0.2 <= s[0] + 1.0 && s[1] <= -0.2 <= s[1] + 1.0
  {
    var a := CalculateNoBins(1.0, -1.0, 1.0);
    assert Ceil(0.5) == 1;
    assert a == Axis(3, -1.0, 1.0);
    var s := AxisStarts(a);
    assert s[0] == -1.0 && s[1] == -1.0 / 3.0 && s[2] == 1.0 / 3.0;
  }

  /** The axes `prepare_df` of this version derives from the points. */
  function GridAxes(points: seq<Vec3>, resolution: real): Axes
    requires points != [] && 0.0 < resolution
  {
    Axes(CalculateNoBins(resolution, MinOf(Xs(points)), MaxOf(Xs(points))),
         CalculateNoBins(resolution, MinOf(Ys(points)), MaxOf(Ys(points))),
         CalculateNoBins(resolution, MinOf(Zs(points)), MaxOf(Zs(points))))
  }

  /** `prepare_df` of this version: the bin starts, one row per bin, or the
      error raised for the NaN bounds of no points. */
  function PrepareDf(points: seq<Vec3>, resolution: real): (r: Result<seq<Vec3>>)
    requires 0.0 < resolution
    ensures r.Ok? <==> points != []
    ensures r.Ok? ==> var ax := GridAxes(points, resolution);
                      |r.value| == ax.x.count * ax.y.count * ax.z.count
  {
    if points == [] then Err(NaNBounds) else Ok(GridStarts(GridAxes(points, resolution)))
  }

  /** The fixed resolution of `count_bins_in_vdw`. */
  const VolumeResolution := 0.1

  /** The axes `count_bins_in_vdw` lays over the boxes of the atoms. */
  function VolumeAxes(atoms: seq<ModelAtom>, extra: real): Axes
    requires atoms != []
  {
    var boxes := FindMinMaxBounds(atoms, extra);
    var lows, highs := Lows(boxes), Highs(boxes);
    Axes(CalculateNoBins(VolumeResolution, MinOf(Xs(lows)), MaxOf(Xs(highs))),
         CalculateNoBins(VolumeResolution, MinOf(Ys(lows)), MaxOf(Ys(highs))),
         CalculateNoBins(VolumeResolution, MinOf(Zs(lows)), MaxOf(Zs(highs))))
  }

  /** The bin centres of that grid. */
  function VolumeCentres(atoms: seq<ModelAtom>, extra: real): seq<Vec3>
    requires atoms != []
  {
    Centres(GridStarts(VolumeAxes(atoms, extra)), VolumeResolution)
  }

  /** Message for a grid whose `part_density` lost bins, so that the marks
      and the centres no longer line up. */
  const MisalignedBins := "bin centres outside the adjusted bounds"

  /** What `count_bins_in_vdw` computes: the bins of the grid at
      resolution 0.1 whose centre lies within reach of some atom, times
      `0.1³`.  When `part_density` drops a bin the marks would be read
      against the wrong centres; that case is reported as an error. */
  function BinsInVdw(atoms: seq<ModelAtom>, extra: real, sqrt: real -> real): (r: Result<real>)
    ensures r.Ok? ==> atoms != [] && 0.0 <= r.value
  {
    if atoms == [] then Err(NaNBounds)
    else
      var centres := VolumeCentres(atoms, extra);
      if |PartDensity(centres, VolumeAxes(atoms, extra))| != |centres| then Err(MisalignedBins)
      else Ok(BinVolume(CountCovered(centres, atoms, extra, sqrt), VolumeResolution))
  }

  /** `count_bins_in_vdw`: the grid, the marking loop and the volume. */
  method CountBinsInVdw(atoms: seq<ModelAtom>, extra: real, sqrt: real -> real) returns (r: Result<real>)
    ensures r == BinsInVdw(atoms, extra, sqrt)
  {
    if atoms == [] {
      return Err(NaNBounds);
    }
    var ax := VolumeAxes(atoms, extra);
    var centres := Centres(GridStarts(ax), VolumeResolution);
    var part := PartDensity(centres, ax);
    if |part| != |centres| {
      return Err(MisalignedBins);
    }
    PartDensityComplete(centres, ax);
    var marked := MarkBins(part, atoms, extra, sqrt);
    return Ok(BinVolume(marked, VolumeResolution));
  }

  /** A filter that keeps as many centres as it is given keeps them all. */
  lemma {:induction false} PartDensityComplete(centres: seq<Vec3>, ax: Axes)
    requires |PartDensity(centres, ax)| == |centres|
    ensures PartDensity(centres, ax) == centres
    decreases |centres|
  {
    if centres != [] {
      var p := centres[..|centres| - 1];
      assert |PartDensity(p, ax)| <= |p|;
      PartDensityComplete(p, ax);
    }
  }

  /** With at least three bins, every bin centre of an axis of this version
      lies strictly inside its bounds. */
  lemma CentreInside(resolution: real, lo: real, hi: real, s: real)
    requires 0.0 < resolution && s in AxisStarts(CalculateNoBins(resolution, lo, hi))
    requires 3 <= CalculateNoBins(resolution, lo, hi).count
    ensures var a := CalculateNoBins(resolution, lo, hi);
            a.minimum < s + 0.5 * resolution < a.maximum
  {
    AxisCentreInside(CalculateNoBins(resolution, lo, hi), resolution, s);
  }

  /** The same for any axis spanning `count - 1` bins of width `r`. */
  lemma AxisCentreInside(a: Axis, r: real, s: real)
    requires 0.0 < r && s in AxisStarts(a) && 3 <= a.count
    requires a.maximum - a.minimum == (a.count - 1) as real * r
    ensures a.minimum < s + 0.5 * r < a.maximum
  {
    var k := StartIndex(a.minimum, a.maximum, a.count, s);
    var n := a.count as real;
    var step := (a.maximum - a.minimum) / n;
    DivMul(a.maximum - a.minimum, n);
    NarrowCentre(k as real, n, r, step);
  }

  /** A value of a linspace is its start plus a whole number of steps. */
  lemma StartIndex(start: real, stop: real, num: nat, s: real) returns (k: nat)
    requires s in Linspace(start, stop, num)
    ensures k < num && s == start + k as real * ((stop - start) / num as real)
  {
    var v := Linspace(start, stop, num);
    k :| 0 <= k < |v| && v[k] == s;
  }

  /** Bin `k` of `n >= 3` bins `step = (n - 1) r / n` apart has its centre
      within `(n - 1) r` of the first start. */
  lemma NarrowCentre(k: real, n: real, r: real, step: real)
    requires 0.0 <= k && k + 1.0 <= n && 3.0 <= n && 0.0 < r && step * n == (n - 1.0) * r
    ensures 0.0 < k * step + 0.5 * r < (n - 1.0) * r
  {
    StepPositive(step, n, r);
    MulMonotoneReal(k, n - 1.0, step);
    LastCentre(n, r, step);
  }

  /** The step of `n >= 3` bins is positive. */
  lemma StepPositive(step: real, n: real, r: real)
    requires 3.0 <= n && 0.0 < r && step * n == (n - 1.0) * r
    ensures 0.0 < step
  {
  }

  /** Scaling by a positive step keeps the order of non-negative factors. */
  lemma MulMonotoneReal(k: real, m: real, step: real)
    requires 0.0 <= k <= m && 0.0 < step
    ensures 0.0 <= k * step <= m * step
  {
  }

  /** The centre of the last of `n >= 3` bins lies below `(n - 1) r`. */
  lemma LastCentre(n: real, r: real, step: real)
    requires 3.0 <= n && 0.0 < r && step * n == (n - 1.0) * r
    ensures (n - 1.0) * step + 0.5 * r < (n - 1.0) * r
  {
    var m := n - 1.0;
    var x := m * step + 0.5 * r;
    var y := m * r;
    var gap := r * (0.5 * n - 1.0);
    assert x * n == m * m * r + 0.5 * r * n;
    assert y * n == x * n + gap;
    MulPos(r, 0.5 * n - 1.0);
    CancelGap(x, y, n, gap);
  }

  /** With at least three bins on every axis no bin is dropped, and the
      volume is the marked bins times `0.1³`. */
  lemma BinsInVdwDefined(atoms: seq<ModelAtom>, extra: real, sqrt: real -> real)
    requires atoms != []
    requires var ax := VolumeAxes(atoms, extra); 3 <= ax.x.count && 3 <= ax.y.count && 3 <= ax.z.count
    ensures BinsInVdw(atoms, extra, sqrt).Ok?
  {
    var ax := VolumeAxes(atoms, extra);
    var boxes := FindMinMaxBounds(atoms, extra);
    var lows, highs := Lows(boxes), Highs(boxes);
    var starts := GridStarts(ax);
    var centres := VolumeCentres(atoms, extra);
    forall i | 0 <= i < |centres|
      ensures Inside(centres[i], ax)
    {
      RowFromAxes(ax, i);
      CentreInside(VolumeResolution, MinOf(Xs(lows)), MaxOf(Xs(highs)), starts[i].x);
      CentreInside(VolumeResolution, MinOf(Ys(lows)), MaxOf(Ys(highs)), starts[i].y);
      CentreInside(VolumeResolution, MinOf(Zs(lows)), MaxOf(Zs(highs)), starts[i].z);
    }
    PartDensityAll(centres, ax);
  }

  /** `find_available_volume` of this version on the three volumes it
      computes: the first failure in the order of the calls, or with
      `total` the volume reached with `extra`, otherwise that less the bare
      volume plus half the bare volume of the R atoms. */
  function Available(central: Result<real>, max: Result<real>, bare: Result<real>, hasR: bool, total: bool): (r: Result<real>)
  {
    if central.Err? then central
    else if max.Err? then max
    else if hasR && bare.Err? then bare
    else if total then max
    else Ok(max.value - (central.value - (if hasR then bare.value else 0.0) / 2.0))
  }

  /** The result is defined exactly when the volumes it needs are, and is
      then the volume `find_available_volume` returns. */
  lemma AvailableSpec(central: Result<real>, max: Result<real>, bare: Result<real>, hasR: bool, total: bool)
    ensures var r := Available(central, max, bare, hasR, total);
            (r.Ok? <==> central.Ok? && max.Ok? && (!hasR || bare.Ok?)) &&
            (r.Err? ==> r == central || r == max || r == bare) &&
            (r.Ok? ==> r.value == if total then max.value
                                  else max.value - (central.value - (if hasR then bare.value else 0.0) / 2.0))
  {
  }

  /** `find_available_volume` of this version: the bare volume of the
      model and the volume of the atoms without R reached with `extra` are
      always computed; with `total` the latter is returned, otherwise it
      less the bare volume plus half the bare volume of the R atoms (zero
      when there are none). */
  method FindAvailableVolume(atoms: seq<ModelAtom>, extra: real, total: bool, sqrt: real -> real)
    returns (r: Result<real>)
    ensures r == Available(BinsInVdw(atoms, 0.0, sqrt), BinsInVdw(WithoutR(atoms), extra, sqrt),
                           BinsInVdw(OnlyR(atoms), 0.0, sqrt), OnlyR(atoms) != [], total)
  {
    var central := CountBinsInVdw(atoms, 0.0, sqrt);
    if central.Err? {
      return central;
    }
    var max := CountBinsInVdw(WithoutR(atoms), extra, sqrt);
    if max.Err? {
      return max;
    }
    var onlyR := OnlyR(atoms);
    var rMin := 0.0;
    if |onlyR| > 0 {
      var b := CountBinsInVdw(onlyR, 0.0, sqrt);
      if b.Err? {
        return b;
      }
      rMin := b.value;
    }
    if total {
      return max;
    }
    r := Ok(max.value - (central.value - rMin / 2.0));
    AvailableOk(central, max, BinsInVdw(onlyR, 0.0, sqrt), onlyR != [], rMin, r);
  }

  /** The last return of `find_available_volume`. */
  lemma AvailableOk(central: Result<real>, max: Result<real>, bare: Result<real>, hasR: bool, rMin: real, r: Result<real>)
    requires central.Ok? && max.Ok? && (hasR ==> bare == Ok(rMin)) && (!hasR ==> rMin == 0.0)
    requires r == Ok(max.value - (central.value - rMin / 2.0))
    ensures r == Available(central, max, bare, hasR, false)
  {
  }
}
