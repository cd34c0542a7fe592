/** The bin grid of the density calculation
    (src/scripts/helpers/density_helpers.py): the bins per axis, the start
    of every bin, counting contact points into bins and normalising the
    counts.  Bins are cubes of side `resolution`; rows of the grid are the
    bins in x-major, z-minor order. */
module DensityGrid {
  import opened Wrappers
  import opened Vectors
  import opened Reals

  /** `math.ceil` of a non-negative real. */
  function Ceil(x: real): (n: nat)
    requires 0.0 <= x
    ensures n as real - 1.0 < x <= n as real
  {
    if x == x.Floor as real then x.Floor else x.Floor + 1
  }

  function Abs(x: real): real { if x < 0.0 then -x else x }

  /** One axis of the grid: `count` bins, from `minimum` to `maximum`. */
  datatype Axis = Axis(count: nat, minimum: real, maximum: real)

  /** `ceil(x / r)` bins of width `r` reach at least `x`. */
  lemma CeilCovers(x: real, r: real)
    requires 0.0 <= x && 0.0 < r
    ensures x <= Ceil(x / r) as real * r
  {
    var q := x / r;
    var c := Ceil(q) as real;
    assert q * r == x;
    assert 0.0 <= (c - q) * r;
  }

  /** `calculate_no_bins`: `ceil(|lo|/res)` bins below the origin bin and
      `ceil(|hi|/res)` above it, and bounds half a bin beyond those.  The
      bins tile the adjusted range exactly and the range contains `[lo, hi]`. */
  function CalculateNoBins(resolution: real, lo: real, hi: real): (a: Axis)
    requires 0.0 < resolution
    ensures 1 <= a.count
    ensures a.maximum - a.minimum == a.count as real * resolution
    ensures a.minimum < lo && hi < a.maximum
  {
    BinsReach(resolution, lo, hi);
    SpanAxis(Ceil(Abs(lo) / resolution), Ceil(Abs(hi) / resolution), resolution)
  }

  /** `neg` bins below and `pos` bins above the origin bin `[-r/2, r/2]`:
      `neg + pos + 1` bins of width `r` tiling the axis. */
  function SpanAxis(neg: nat, pos: nat, r: real): (a: Axis)
    ensures 1 <= a.count
    ensures a.maximum - a.minimum == a.count as real * r
  {
    assert (neg + pos + 1) as real == neg as real + pos as real + 1.0;
    Axis(neg + pos + 1, -(neg as real) * r - 0.5 * r, pos as real * r + 0.5 * r)
  }

  /** `ceil(|lo|/r)` bins below and `ceil(|hi|/r)` above the origin reach
      past `lo` and `hi`. */
  lemma BinsReach(r: real, lo: real, hi: real)
    requires 0.0 < r
    ensures var a := SpanAxis(Ceil(Abs(lo) / r), Ceil(Abs(hi) / r), r);
            a.minimum < lo && hi < a.maximum
  {
    CeilCovers(Abs(lo), r);
    CeilCovers(Abs(hi), r);
  }

  /** `numpy.linspace(start, stop, num, endpoint=False)`: `num` values
      from `start` in steps of `(stop - start) / num`. */
  function Linspace(start: real, stop: real, num: nat): (r: seq<real>)
    ensures |r| == num
  {
    seq(num, k requires 0 <= k < num => start + k as real * ((stop - start) / num as real))
  }

  /** The bin starts along one axis. */
  function AxisStarts(a: Axis): (r: seq<real>)
    ensures |r| == a.count
  {
    Linspace(a.minimum, a.maximum, a.count)
  }

  /** On an axis from `calculate_no_bins` the starts are exactly one
      resolution apart, from the adjusted minimum. */
  lemma StartsSpaced(resolution: real, lo: real, hi: real, k: nat)
    requires 0.0 < resolution
    requires k < CalculateNoBins(resolution, lo, hi).count
    ensures var a := CalculateNoBins(resolution, lo, hi);
            AxisStarts(a)[k] == a.minimum + k as real * resolution
  {
    var a := CalculateNoBins(resolution, lo, hi);
    SpanStep(a.maximum - a.minimum, a.count as real, resolution);
  }

  /** A span of `n` steps divided by `n` is one step. */
  lemma SpanStep(span: real, n: real, step: real)
    requires n != 0.0 && span == n * step
    ensures span / n == step
  {
    DivMul(span, n);
    CancelNonZero(span / n, step, n);
  }

  /** The origin is the centre of a bin: bin `ceil(|lo|/res)` spans
      `[-res/2, res/2]`. */
  lemma OriginIsCentre(resolution: real, lo: real, hi: real) returns (k: nat)
    requires 0.0 < resolution
    ensures var a := CalculateNoBins(resolution, lo, hi);
            k < a.count && AxisStarts(a)[k] == -0.5 * resolution &&
            AxisStarts(a)[k] + 0.5 * resolution == 0.0
  {
    k := Ceil(Abs(lo) / resolution);
    StartsSpaced(resolution, lo, hi, k);
  }

  /** `numpy.repeat(s, n)`: every value `n` times in a row. */
  function Repeat(s: seq<real>, n: nat): (r: seq<real>)
    ensures |r| == |s| * n
    decreases |s|
  {
    if s == [] then [] else seq(n, _ => s[0]) + Repeat(s[1..], n)
  }

  /** `list(s) * n`: `n` copies of `s` one after the other. */
  function Tile(s: seq<real>, n: nat): (r: seq<real>)
    ensures |r| == |s| * n
    decreases n
  {
    if n == 0 then [] else s + Tile(s, n - 1)
  }

  /** Position `a * n + j` of a repeat holds value `a`. */
  lemma {:induction false} RepeatAt(s: seq<real>, n: nat, a: nat, j: nat)
    requires a < |s| && j < n
    ensures a * n + j < |s| * n && Repeat(s, n)[a * n + j] == s[a]
    decreases a
  {
    BlockShift(a, |s|, n, j);
    if a > 0 {
      RepeatAt(s[1..], n, a - 1, j);
      assert Repeat(s, n)[a * n + j] == Repeat(s[1..], n)[(a - 1) * n + j];
    }
  }

  /** Index arithmetic of a sequence of `m` blocks of `n`: dropping the
      first block moves entry `a * n + j` to `(a - 1) * n + j`. */
  lemma BlockShift(a: nat, m: nat, n: nat, j: nat)
    requires a < m && j < n
    ensures m * n == n + (m - 1) * n && 0 <= (m - 1) * n
    ensures a == 0 ==> a * n + j == j
    ensures 0 < a ==> a * n + j == (a - 1) * n + j + n
  {
  }

  /** Position `b * |s| + j` of a tile holds value `j`. */
  lemma {:induction false} TileAt(s: seq<real>, n: nat, b: nat, j: nat)
    requires b < n && j < |s|
    ensures b * |s| + j < |s| * n && Tile(s, n)[b * |s| + j] == s[j]
    decreases b
  {
    if b > 0 {
      TileAt(s, n - 1, b - 1, j);
      assert b * |s| + j == (b - 1) * |s| + j + |s|;
    }
  }

  /** Three columns of equal length as rows. */
  function Rows(xs: seq<real>, ys: seq<real>, zs: seq<real>): (r: seq<Vec3>)
    requires |xs| == |ys| == |zs|
    ensures |r| == |xs|
    ensures forall i :: 0 <= i < |r| ==> r[i] == Vec3(xs[i], ys[i], zs[i])
  {
    seq(|xs|, i requires 0 <= i < |xs| => Vec3(xs[i], ys[i], zs[i]))
  }

  /** Sizes of the three columns of `add_boundaries_per_bin`. */
  lemma ProductOrders(xl: nat, yl: nat, zl: nat)
    ensures xl * (yl * zl) == yl * zl * xl == zl * (xl * yl) == xl * yl * zl
  {
  }

  /** `add_boundaries_per_bin`: one row per combination of an x, a y and a
      z start, x varying slowest and z fastest. */
  function AddBoundariesPerBin(binsX: seq<real>, binsY: seq<real>, binsZ: seq<real>): (r: seq<Vec3>)
    ensures |r| == |binsX| * |binsY| * |binsZ|
  {
    var xl, yl, zl := |binsX|, |binsY|, |binsZ|;
    ProductOrders(xl, yl, zl);
    Rows(Repeat(binsX, yl * zl), Tile(Repeat(binsY, zl), xl), Tile(binsZ, xl * yl))
  }

  /** The row index of start `a`, `b`, `c` read as a block of `yl * zl`
      rows, or as `zl` rows within block `a * yl + b`. */
  lemma IndexSplit(a: nat, b: nat, c: nat, xl: nat, yl: nat, zl: nat)
    requires a < xl && b < yl && c < zl
    ensures (a * yl + b) * zl + c == a * (yl * zl) + (b * zl + c)
    ensures b * zl + c < yl * zl
    ensures a * yl + b < xl * yl
    ensures (a * yl + b) * zl + c < xl * yl * zl
  {
    BlockBound(b, c, yl, zl);
    BlockBound(a, b, xl, yl);
    BlockBound(a * yl + b, c, xl * yl, zl);
    assert (a * yl + b) * zl == a * yl * zl + b * zl;
    assert a * yl * zl == a * (yl * zl);
  }

  /** Entry `c` of block `q` among `m` blocks of `w` lies within them. */
  lemma BlockBound(q: nat, c: nat, m: nat, w: nat)
    requires q < m && c < w
    ensures q * w + c < m * w
  {
    assert q * w + w == (q + 1) * w;
    MulMonotone(q + 1, m, w);
  }

  lemma {:induction false} MulMonotone(k: nat, m: nat, w: nat)
    requires k <= m
    ensures k * w <= m * w
    decreases m - k
  {
    if k < m {
      MulMonotone(k + 1, m, w);
      assert (k + 1) * w == k * w + w;
    }
  }

  /** Row `i = (a * yl + b) * zl + c` holds x start `a`, y start `b` and z
      start `c`. */
  lemma BoundariesAt(binsX: seq<real>, binsY: seq<real>, binsZ: seq<real>, a: nat, b: nat, c: nat, i: nat)
    requires a < |binsX| && b < |binsY| && c < |binsZ|
    requires i == (a * |binsY| + b) * |binsZ| + c
    ensures i < |AddBoundariesPerBin(binsX, binsY, binsZ)|
    ensures AddBoundariesPerBin(binsX, binsY, binsZ)[i] == Vec3(binsX[a], binsY[b], binsZ[c])
  {
    var xl, yl, zl := |binsX|, |binsY|, |binsZ|;
    var inner := b * zl + c;
    IndexSplit(a, b, c, xl, yl, zl);
    ProductOrders(xl, yl, zl);
    var xs, ys, zs := Repeat(binsX, yl * zl), Tile(Repeat(binsY, zl), xl), Tile(binsZ, xl * yl);
    RepeatAt(binsY, zl, b, c);
    RepeatAt(binsX, yl * zl, a, inner);
    TileAt(Repeat(binsY, zl), xl, a, inner);
    TileAt(binsZ, xl * yl, a * yl + b, c);
    assert xs[i] == binsX[a] && ys[i] == binsY[b] && zs[i] == binsZ[c];
    assert AddBoundariesPerBin(binsX, binsY, binsZ) == Rows(xs, ys, zs);
  }

  /** `Series.min()` of a non-empty column. */
  function MinOf(xs: seq<real>): (m: real)
    requires xs != []
    ensures forall i :: 0 <= i < |xs| ==> m <= xs[i]
    ensures exists i :: 0 <= i < |xs| && xs[i] == m
    decreases |xs|
  {
    if |xs| == 1 then xs[0]
    else
      var m := MinOf(xs[..|xs| - 1]);
      if xs[|xs| - 1] < m then xs[|xs| - 1] else m
  }

  /** `Series.max()` of a non-empty column. */
  function MaxOf(xs: seq<real>): (m: real)
    requires xs != []
    ensures forall i :: 0 <= i < |xs| ==> xs[i] <= m
    ensures exists i :: 0 <= i < |xs| && xs[i] == m
    decreases |xs|
  {
    if |xs| == 1 then xs[0]
    else
      var m := MaxOf(xs[..|xs| - 1]);
      if m < xs[|xs| - 1] then xs[|xs| - 1] else m
  }

  /** The three axes of a grid. */
  datatype Axes = Axes(x: Axis, y: Axis, z: Axis)

  /** The axes `prepare_df` derives from the extent of the points. */
  function GridAxes(points: seq<Vec3>, resolution: real): Axes
    requires points != [] && 0.0 < resolution
  {
    Axes(CalculateNoBins(resolution, MinOf(Xs(points)), MaxOf(Xs(points))),
         CalculateNoBins(resolution, MinOf(Ys(points)), MaxOf(Ys(points))),
         CalculateNoBins(resolution, MinOf(Zs(points)), MaxOf(Zs(points))))
  }

  /** The bin starts of a grid, in `add_boundaries_per_bin` order. */
  function GridStarts(ax: Axes): (r: seq<Vec3>)
    ensures |r| == ax.x.count * ax.y.count * ax.z.count
  {
    AddBoundariesPerBin(AxisStarts(ax.x), AxisStarts(ax.y), AxisStarts(ax.z))
  }

  /** `fill_bins`' test: the bin starting at `s` holds `c` when
      `s <= c` and `c - res <= s` on every axis (closed on both sides). */
  predicate InBin(s: Vec3, c: Vec3, resolution: real)
  {
    s.x <= c.x && c.x - resolution <= s.x &&
    s.y <= c.y && c.y - resolution <= s.y &&
    s.z <= c.z && c.z - resolution <= s.z
  }

  /** `idx[0][0]`: the lowest-index bin holding `c`, if any. */
  function FirstBin(starts: seq<Vec3>, c: Vec3, resolution: real): (r: Option<nat>)
    ensures r.Some? ==> r.value < |starts| && InBin(starts[r.value], c, resolution)
    ensures r.Some? ==> forall j :: 0 <= j < r.value ==> !InBin(starts[j], c, resolution)
    ensures r.None? ==> forall j :: 0 <= j < |starts| ==> !InBin(starts[j], c, resolution)
    decreases |starts|
  {
    if starts == [] then None
    else if InBin(starts[0], c, resolution) then Some(0)
    else
      match FirstBin(starts[1..], c, resolution)
      case None => None
      case Some(k) => Some(k + 1)
  }

  /** A value strictly inside `n` bins of width `res` from `m` lies in
      bin `floor((v - m) / res)`. */
  lemma FloorIndex(m: real, n: nat, resolution: real, v: real) returns (k: nat)
    requires 0.0 < resolution && m < v < m + n as real * resolution
    ensures k < n && m + k as real * resolution <= v && v - resolution <= m + k as real * resolution
  {
    var q := (v - m) / resolution;
    assert q * resolution == v - m;
    k := q.Floor;
    FloorScaled(q, k as real, resolution, v - m);
    assert q < n as real by {
      assert q * resolution < n as real * resolution;
    }
  }

  /** Scaling `k <= q < k + 1` by a positive `r`, where `q * r == d`. */
  lemma FloorScaled(q: real, k: real, r: real, d: real)
    requires k <= q < k + 1.0 && 0.0 < r && q * r == d
    ensures k * r <= d < k * r + r
  {
    var f := q - k;
    assert q * r == k * r + f * r;
    assert 0.0 <= f * r < r;
    assert d == k * r + f * r;
    assert d < k * r + r;
  }

  /** A value within `[lo, hi]` lies in some bin of the axis that
      `calculate_no_bins` makes for `[lo, hi]`. */
  lemma AxisIndex(resolution: real, lo: real, hi: real, v: real) returns (k: nat)
    requires 0.0 < resolution && lo <= v <= hi
    ensures var a := CalculateNoBins(resolution, lo, hi);
            k < a.count && AxisStarts(a)[k] <= v && v - resolution <= AxisStarts(a)[k]
  {
    var a := CalculateNoBins(resolution, lo, hi);
    k := FloorIndex(a.minimum, a.count, resolution, v);
    StartsSpaced(resolution, lo, hi, k);
  }

  /** Each coordinate of a point lies within the extent of the points. */
  lemma WithinExtent(points: seq<Vec3>, i: nat)
    requires i < |points|
    ensures MinOf(Xs(points)) <= points[i].x <= MaxOf(Xs(points))
    ensures MinOf(Ys(points)) <= points[i].y <= MaxOf(Ys(points))
    ensures MinOf(Zs(points)) <= points[i].z <= MaxOf(Zs(points))
  {
    CoordsAt(points, i);
  }

  /** Every point lies in some bin of the grid built from the points. */
  lemma GridCovers(points: seq<Vec3>, resolution: real, i: nat)
    requires 0.0 < resolution && i < |points|
    ensures FirstBin(GridStarts(GridAxes(points, resolution)), points[i], resolution).Some?
  {
    var p := points[i];
    WithinExtent(points, i);
    var kx := AxisIndex(resolution, MinOf(Xs(points)), MaxOf(Xs(points)), p.x);
    var ky := AxisIndex(resolution, MinOf(Ys(points)), MaxOf(Ys(points)), p.y);
    var kz := AxisIndex(resolution, MinOf(Zs(points)), MaxOf(Zs(points)), p.z);
    var ax := GridAxes(points, resolution);
    Covering(ax, p, resolution, kx, ky, kz);
  }

  /** A point whose coordinates lie in bins `kx`, `ky` and `kz` of the
      axes lies in the grid row of those bins. */
  lemma Covering(ax: Axes, p: Vec3, resolution: real, kx: nat, ky: nat, kz: nat)
    requires kx < ax.x.count && ky < ax.y.count && kz < ax.z.count
    requires AxisStarts(ax.x)[kx] <= p.x && p.x - resolution <= AxisStarts(ax.x)[kx]
    requires AxisStarts(ax.y)[ky] <= p.y && p.y - resolution <= AxisStarts(ax.y)[ky]
    requires AxisStarts(ax.z)[kz] <= p.z && p.z - resolution <= AxisStarts(ax.z)[kz]
    ensures FirstBin(GridStarts(ax), p, resolution).Some?
  {
    var sx, sy, sz := AxisStarts(ax.x), AxisStarts(ax.y), AxisStarts(ax.z);
    var k := (kx * |sy| + ky) * |sz| + kz;
    BoundariesAt(sx, sy, sz, kx, ky, kz, k);
    FirstBinFinds(GridStarts(ax), p, resolution, k);
  }

  /** A bin holding `c` means a first such bin exists. */
  lemma FirstBinFinds(starts: seq<Vec3>, c: Vec3, resolution: real, k: nat)
    requires k < |starts| && InBin(starts[k], c, resolution)
    ensures FirstBin(starts, c, resolution).Some?
  {
  }

  /** Message of the `ValueError` raised for the NaN bounds of no points. */
  const NaNBounds := "cannot convert float NaN to integer"

  /** `prepare_df`: the bin starts of a grid around the points, or the
      error raised when there are no points. */
  function PrepareDf(points: seq<Vec3>, resolution: real): (r: Result<seq<Vec3>>)
    requires 0.0 < resolution
    ensures r.Ok? <==> points != []
    ensures r.Ok? ==> forall i :: 0 <= i < |points| ==> FirstBin(r.value, points[i], resolution).Some?
  {
    if points == [] then Err(NaNBounds)
    else
      var starts := GridStarts(GridAxes(points, resolution));
      assert forall i :: 0 <= i < |points| ==> FirstBin(starts, points[i], resolution).Some? by {
        forall i | 0 <= i < |points| {
          GridCovers(points, resolution, i);
        }
      }
      Ok(starts)
  }

  /** Number of points whose first bin is bin `k`. */
  function Hits(starts: seq<Vec3>, points: seq<Vec3>, resolution: real, k: nat): (n: nat)
    ensures n <= |points|
    decreases |points|
  {
    if points == [] then 0
    else
      var last := if FirstBin(starts, points[|points| - 1], resolution) == Some(k) then 1 else 0;
      Hits(starts, points[..|points| - 1], resolution, k) + last
  }

  /** Number of points that lie in some bin. */
  function Matched(starts: seq<Vec3>, points: seq<Vec3>, resolution: real): (n: nat)
    ensures n <= |points|
    decreases |points|
  {
    if points == [] then 0
    else
      var last := if FirstBin(starts, points[|points| - 1], resolution).Some? then 1 else 0;
      Matched(starts, points[..|points| - 1], resolution) + last
  }

  /** One point counted: one more in its bin, nothing for no bin. */
  function Tally(amount: seq<real>, bin: Option<nat>): (r: seq<real>)
    requires bin.Some? ==> bin.value < |amount|
    ensures |r| == |amount|
  {
    match bin
    case None => amount
    case Some(k) => amount[k := amount[k] + 1.0]
  }

  /** The counts after `fill_bins` has counted `points` into `amount`. */
  function Filled(amount: seq<real>, starts: seq<Vec3>, points: seq<Vec3>, resolution: real): (r: seq<real>)
    requires |amount| == |starts|
    ensures |r| == |amount|
    decreases |points|
  {
    if points == [] then amount
    else
      Tally(Filled(amount, starts, points[..|points| - 1], resolution),
            FirstBin(starts, points[|points| - 1], resolution))
  }

  /** `fill_bins`: each point adds one to the lowest-index bin holding it;
      a point in no bin is reported and not counted. */
  method FillBins(amount: array<real>, starts: seq<Vec3>, points: seq<Vec3>, resolution: real)
    requires amount.Length == |starts|
    modifies amount
    ensures amount[..] == Filled(old(amount[..]), starts, points, resolution)
  {
    for i := 0 to |points|
      invariant amount[..] == Filled(old(amount[..]), starts, points[..i], resolution)
    {
      assert points[..i + 1][..i] == points[..i];
      match FirstBin(starts, points[i], resolution) {
        case Some(k) =>
          amount[k] := amount[k] + 1.0;
        case None =>
      }
    }
    assert points[..|points|] == points;
  }

  /** After counting, bin `k` holds its old count plus the points whose
      first bin it is. */
  lemma {:induction false} FilledAt(amount: seq<real>, starts: seq<Vec3>, points: seq<Vec3>, resolution: real, k: nat)
    requires |amount| == |starts| && k < |amount|
    ensures Filled(amount, starts, points, resolution)[k] == amount[k] + Hits(starts, points, resolution, k) as real
    decreases |points|
  {
    if points != [] {
      FilledAt(amount, starts, points[..|points| - 1], resolution, k);
    }
  }

  /** Adding `x` to one entry adds `x` to the sum. */
  lemma {:induction false} SumUpdate(s: seq<real>, k: nat, x: real)
    requires k < |s|
    ensures Sum(s[k := s[k] + x]) == Sum(s) + x
    decreases |s|
  {
    var t := s[k := s[k] + x];
    var p := s[..|s| - 1];
    if k == |s| - 1 {
      assert t[..|t| - 1] == p;
    } else {
      SumUpdate(p, k, x);
      assert t[..|t| - 1] == p[k := p[k] + x];
    }
  }

  /** Counting adds one to the total per point that lies in some bin. */
  lemma {:induction false} FilledSum(amount: seq<real>, starts: seq<Vec3>, points: seq<Vec3>, resolution: real)
    requires |amount| == |starts|
    ensures Sum(Filled(amount, starts, points, resolution)) == Sum(amount) + Matched(starts, points, resolution) as real
    decreases |points|
  {
    if points != [] {
      var p := points[..|points| - 1];
      FilledSum(amount, starts, p, resolution);
      var b := FirstBin(starts, points[|points| - 1], resolution);
      if b.Some? {
        SumUpdate(Filled(amount, starts, p, resolution), b.value, 1.0);
      }
    }
  }

  /** All points are counted exactly when each lies in some bin. */
  lemma {:induction false} MatchedAll(starts: seq<Vec3>, points: seq<Vec3>, resolution: real)
    ensures Matched(starts, points, resolution) == |points| <==>
            forall i :: 0 <= i < |points| ==> FirstBin(starts, points[i], resolution).Some?
    decreases |points|
  {
    if points != [] {
      var p := points[..|points| - 1];
      MatchedAll(starts, p, resolution);
      assert forall i :: 0 <= i < |p| ==> p[i] == points[i];
    }
  }

  /** Message of the failed assertion in `count_data_points_per_bin`. */
  const FillingFailed := "Something went wrong with filling bins"

  /** `count_data_points_per_bin`: counts per bin from zero, and the
      assertion that every point was counted. */
  method CountDataPointsPerBin(starts: seq<Vec3>, points: seq<Vec3>, resolution: real) returns (r: Result<seq<real>>)
    ensures r.Ok? <==> forall i :: 0 <= i < |points| ==> FirstBin(starts, points[i], resolution).Some?
    ensures r.Ok? ==> |r.value| == |starts| && Sum(r.value) == |points| as real
    ensures r.Ok? ==> forall k :: 0 <= k < |starts| ==> r.value[k] == Hits(starts, points, resolution, k) as real
  {
    var amount := new real[|starts|](_ => 0.0);
    ghost var zeros := amount[..];
    assert forall k :: 0 <= k < |zeros| ==> zeros[k] == 0.0;
    SumZeroIff(zeros);
    FillBins(amount, starts, points, resolution);
    FilledSum(zeros, starts, points, resolution);
    MatchedAll(starts, points, resolution);
    if Sum(amount[..]) != |points| as real {
      return Err(FillingFailed);
    }
    forall k | 0 <= k < |starts|
      ensures amount[k] == Hits(starts, points, resolution, k) as real
    {
      FilledAt(zeros, starts, points, resolution, k);
    }
    return Ok(amount[..]);
  }

  /** `counts / counts.sum()`, the `datafrac_normalized` column; `None`
      stands for the all-NaN column of a zero total. */
  function Normalise(counts: seq<real>): (r: Option<seq<real>>)
    ensures r.Some? <==> Sum(counts) != 0.0
    ensures r.Some? ==> |r.value| == |counts| && Sum(r.value) == 1.0
    ensures r.Some? ==> forall i :: 0 <= i < |counts| ==> r.value[i] == counts[i] / Sum(counts)
  {
    var total := Sum(counts);
    if total == 0.0 then None
    else
      var f := seq(|counts|, i requires 0 <= i < |counts| => counts[i] / total);
      assert forall i :: 0 <= i < |counts| ==> f[i] == counts[i] * (1.0 / total) by {
        forall i | 0 <= i < |counts| {
          DivIsMulInverse(counts[i], total);
        }
      }
      SumScale(counts, f, 1.0 / total);
      Some(f)
  }

  /** With non-negative counts every fraction lies in `[0, 1]`, is
      positive exactly for a positive count, and fractions are ordered as
      the counts are. */
  lemma NormaliseBounds(counts: seq<real>, i: nat, j: nat)
    requires forall k :: 0 <= k < |counts| ==> 0.0 <= counts[k]
    requires Normalise(counts).Some? && i < |counts| && j < |counts|
    ensures var f := Normalise(counts).value;
            0.0 <= f[i] <= 1.0 && (0.0 < f[i] <==> 0.0 < counts[i]) &&
            (f[i] <= f[j] <==> counts[i] <= counts[j])
  {
    var total := Sum(counts);
    SumNonNegative(counts);
    SumBoundsTerm(counts, i);
    var f := Normalise(counts).value;
    assert f[i] == counts[i] / total && f[j] == counts[j] / total;
    FractionBounds(counts[i], total);
    DivOrder(counts[i], counts[j], total);
  }

  /** A part of a positive whole is a fraction in `[0, 1]`, positive
      exactly when the part is. */
  lemma FractionBounds(a: real, t: real)
    requires 0.0 <= a <= t && 0.0 < t
    ensures 0.0 <= a / t <= 1.0 && (0.0 < a / t <==> 0.0 < a)
  {
    DivOrder(a, t, t);
    QuotientSign(a, t);
  }

  /** Dividing by a positive number keeps the order. */
  lemma DivOrder(a: real, b: real, t: real)
    requires 0.0 < t
    ensures a / t <= b / t <==> a <= b
  {
    assert (b / t - a / t) * t == b - a;
    if a / t <= b / t {
      assert 0.0 <= (b / t - a / t) * t;
    } else {
      assert (b / t - a / t) * t < 0.0;
    }
  }

  /** The counted grid of `make_density_df`. */
  datatype Density = Density(starts: seq<Vec3>, counts: seq<real>, fractions: seq<real>)

  /** `make_density_df` without its file cache: the grid around the
      points, the points counted into it and the normalised counts. */
  method MakeDensityDf(points: seq<Vec3>, resolution: real) returns (r: Result<Density>)
    requires 0.0 < resolution
    ensures r.Ok? <==> points != []
    ensures r.Ok? ==> |r.value.counts| == |r.value.starts| == |r.value.fractions|
    ensures r.Ok? ==> Sum(r.value.counts) == |points| as real && Sum(r.value.fractions) == 1.0
    ensures r.Ok? ==> forall k :: 0 <= k < |r.value.starts| ==>
                        r.value.counts[k] == Hits(r.value.starts, points, resolution, k) as real
    ensures r.Ok? ==> r.value.starts == PrepareDf(points, resolution).value
    ensures r.Ok? ==> forall k :: 0 <= k < |r.value.fractions| ==>
                        r.value.fractions[k] == r.value.counts[k] / (|points| as real)
  {
    var grid := PrepareDf(points, resolution);
    if grid.Err? {
      return Err(grid.error);
    }
    var counted := CountDataPointsPerBin(grid.value, points, resolution);
    var counts := counted.value;
    var fractions := Normalise(counts);
    return Ok(Density(grid.value, counts, fractions.value));
  }
}
