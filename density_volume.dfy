/** The van der Waals volume of the central-group model
    (src/scripts/helpers/density_helpers.py): a grid of bins around the
    model, the bins whose centre lies within reach of a model atom, and the
    available volume derived from three such volumes. */
module DensityVolume {
  import opened Wrappers
  import opened Vectors
  import opened Reals
  import opened Text
  import opened DensityGrid

  /** A row of the averaged central-group model; `name` is its `label`
      column (`label` is a Dafny keyword). */
  datatype ModelAtom = ModelAtom(name: string, pos: Vec3, vdwRadius: real)

  /** The corners of the box around one model atom. */
  datatype Box = Box(low: Vec3, high: Vec3)

  /** `find_min_max_bounds`: per atom, its position minus and plus
      `vdw_radius + extra` on every axis. */
  function FindMinMaxBounds(atoms: seq<ModelAtom>, extra: real): (r: seq<Box>)
    ensures |r| == |atoms|
  {
    seq(|atoms|, i requires 0 <= i < |atoms| =>
      var a := atoms[i];
      var reach := a.vdwRadius + extra;
      Box(Vec3(a.pos.x - reach, a.pos.y - reach, a.pos.z - reach),
          Vec3(a.pos.x + reach, a.pos.y + reach, a.pos.z + reach)))
  }

  /** `|d| < reach` follows from `d * d` below `reach * reach`. */
  lemma SquareBelow(d: real, reach: real)
    requires 0.0 <= reach && d * d < reach * reach
    ensures -reach < d < reach
  {
  }

  /** Every point strictly within `vdw_radius + extra` of an atom lies
      strictly inside the atom's box. */
  lemma BallInBox(atoms: seq<ModelAtom>, extra: real, i: nat, p: Vec3)
    requires i < |atoms|
    requires SqDist(p, atoms[i].pos) < (atoms[i].vdwRadius + extra) * (atoms[i].vdwRadius + extra)
    requires 0.0 <= atoms[i].vdwRadius + extra
    ensures var b := FindMinMaxBounds(atoms, extra)[i];
            b.low.x < p.x < b.high.x && b.low.y < p.y < b.high.y && b.low.z < p.z < b.high.z
  {
    var a := atoms[i];
    var reach := a.vdwRadius + extra;
    var d := Sub(p, a.pos);
    SquareNonNegative(d.x);
    SquareNonNegative(d.y);
    SquareNonNegative(d.z);
    SquareBelow(d.x, reach);
    SquareBelow(d.y, reach);
    SquareBelow(d.z, reach);
  }

  /** The lower and the upper corners of the boxes. */
  function Lows(boxes: seq<Box>): (r: seq<Vec3>)
    ensures |r| == |boxes|
  {
    seq(|boxes|, i requires 0 <= i < |boxes| => boxes[i].low)
  }

  function Highs(boxes: seq<Box>): (r: seq<Vec3>)
    ensures |r| == |boxes|
  {
    seq(|boxes|, i requires 0 <= i < |boxes| => boxes[i].high)
  }

  /** The axes `calc_vdw_vol_central` lays over the boxes of the atoms. */
  function VolumeAxes(atoms: seq<ModelAtom>, extra: real, resolution: real): Axes
    requires atoms != [] && 0.0 < resolution
  {
    var boxes := FindMinMaxBounds(atoms, extra);
    var lows, highs := Lows(boxes), Highs(boxes);
    Axes(CalculateNoBins(resolution, MinOf(Xs(lows)), MaxOf(Xs(highs))),
         CalculateNoBins(resolution, MinOf(Ys(lows)), MaxOf(Ys(highs))),
         CalculateNoBins(resolution, MinOf(Zs(lows)), MaxOf(Zs(highs))))
  }

  /** The `x_center`, `y_center`, `z_center` columns: each start moved half
      a bin along every axis. */
  function Centres(starts: seq<Vec3>, resolution: real): (r: seq<Vec3>)
    ensures |r| == |starts|
  {
    seq(|starts|, i requires 0 <= i < |starts| =>
      Add(starts[i], Vec3(0.5 * resolution, 0.5 * resolution, 0.5 * resolution)))
  }

  /** The bin centres strictly inside the adjusted bounds of every axis:
      `part_density`. */
  function PartDensity(centres: seq<Vec3>, ax: Axes): (r: seq<Vec3>)
    ensures |r| <= |centres|
    ensures forall c :: c in r <==> c in centres && Inside(c, ax)
    decreases |centres|
  {
    if centres == [] then []
    else
      var c := centres[|centres| - 1];
      assert centres == centres[..|centres| - 1] + [c];
      PartDensity(centres[..|centres| - 1], ax) + (if Inside(c, ax) then [c] else [])
  }

  /** Every value of a repeat comes from the repeated sequence. */
  lemma {:induction false} RepeatFrom(s: seq<real>, n: nat, i: nat)
    requires i < |Repeat(s, n)|
    ensures Repeat(s, n)[i] in s
    decreases |s|
  {
    if i >= n {
      RepeatFrom(s[1..], n, i - n);
    }
  }

  /** Every value of a tile comes from the tiled sequence. */
  lemma {:induction false} TileFrom(s: seq<real>, n: nat, i: nat)
    requires i < |Tile(s, n)|
    ensures Tile(s, n)[i] in s
    decreases n
  {
    if i >= |s| {
      TileFrom(s, n - 1, i - |s|);
    }
  }

  /** Every grid row is made of starts of the three axes. */
  lemma RowFromAxes(ax: Axes, i: nat)
    requires i < |GridStarts(ax)|
    ensures GridStarts(ax)[i].x in AxisStarts(ax.x)
    ensures GridStarts(ax)[i].y in AxisStarts(ax.y)
    ensures GridStarts(ax)[i].z in AxisStarts(ax.z)
  {
    var sx, sy, sz := AxisStarts(ax.x), AxisStarts(ax.y), AxisStarts(ax.z);
    var xl, yl, zl := |sx|, |sy|, |sz|;
    ProductOrders(xl, yl, zl);
    RepeatFrom(sx, yl * zl, i);
    var ys := Repeat(sy, zl);
    TileFrom(ys, xl, i);
    var j :| 0 <= j < |ys| && ys[j] == Tile(ys, xl)[i];
    RepeatFrom(sy, zl, j);
    TileFrom(sz, xl * yl, i);
  }

  /** On an axis from `calculate_no_bins` every bin centre lies strictly
      inside the adjusted bounds. */
  lemma CentreInside(resolution: real, lo: real, hi: real, s: real)
    requires 0.0 < resolution && s in AxisStarts(CalculateNoBins(resolution, lo, hi))
    ensures var a := CalculateNoBins(resolution, lo, hi);
            a.minimum < s + 0.5 * resolution < a.maximum
  {
    AxisCentre(CalculateNoBins(resolution, lo, hi), resolution, s);
  }

  /** On an axis tiled by bins of width `r`, every bin centre lies
      strictly inside the bounds. */
  lemma AxisCentre(a: Axis, r: real, s: real)
    requires 0.0 < r && a.maximum - a.minimum == a.count as real * r
    requires s in AxisStarts(a)
    ensures a.minimum < s + 0.5 * r < a.maximum
  {
    var starts := AxisStarts(a);
    var k :| 0 <= k < |starts| && starts[k] == s;
    var step := (a.maximum - a.minimum) / a.count as real;
    SpanStep(a.maximum - a.minimum, a.count as real, r);
    CentreBetween(a.minimum, a.maximum, k as real, a.count as real, r, step, s);
  }

  /** The centre of bin `k` of `n` bins of width `r` from `m` to `mx`. */
  lemma CentreBetween(m: real, mx: real, k: real, n: real, r: real, step: real, s: real)
    requires 0.0 <= k && k + 1.0 <= n && 0.0 < r
    requires mx - m == n * r && step == r && s == m + k * step
    ensures m < s + 0.5 * r < mx
  {
    var g := n - k - 1.0;
    assert n * r == k * r + r + g * r;
    assert 0.0 <= g * r;
    assert 0.0 <= k * r;
  }

  /** Whether a centre lies strictly inside the bounds of every axis. */
  predicate Inside(c: Vec3, ax: Axes)
  {
    ax.x.minimum < c.x < ax.x.maximum && ax.y.minimum < c.y < ax.y.maximum &&
    ax.z.minimum < c.z < ax.z.maximum
  }

  /** The filter keeps centres that are all inside. */
  lemma {:induction false} PartDensityAll(centres: seq<Vec3>, ax: Axes)
    requires forall i :: 0 <= i < |centres| ==> Inside(centres[i], ax)
    ensures PartDensity(centres, ax) == centres
    decreases |centres|
  {
    if centres != [] {
      PartDensityAll(centres[..|centres| - 1], ax);
      assert Inside(centres[|centres| - 1], ax);
    }
  }

  /** The grid of `calc_vdw_vol_central`, as bin centres. */
  function VolumeCentres(atoms: seq<ModelAtom>, extra: real, resolution: real): (r: seq<Vec3>)
    requires atoms != [] && 0.0 < resolution
  {
    Centres(GridStarts(VolumeAxes(atoms, extra, resolution)), resolution)
  }

  /** In exact arithmetic `part_density` keeps every bin: the centres of
      a grid from `calculate_no_bins` lie strictly inside its bounds. */
  lemma PartDensityKeepsAll(atoms: seq<ModelAtom>, extra: real, resolution: real)
    requires atoms != [] && 0.0 < resolution
    ensures PartDensity(VolumeCentres(atoms, extra, resolution), VolumeAxes(atoms, extra, resolution))
            == VolumeCentres(atoms, extra, resolution)
  {
    var ax := VolumeAxes(atoms, extra, resolution);
    var boxes := FindMinMaxBounds(atoms, extra);
    var lows, highs := Lows(boxes), Highs(boxes);
    var starts := GridStarts(ax);
    var centres := VolumeCentres(atoms, extra, resolution);
    forall i | 0 <= i < |centres|
      ensures Inside(centres[i], ax)
    {
      RowFromAxes(ax, i);
      CentreInside(resolution, MinOf(Xs(lows)), MaxOf(Xs(highs)), starts[i].x);
      CentreInside(resolution, MinOf(Ys(lows)), MaxOf(Ys(highs)), starts[i].y);
      CentreInside(resolution, MinOf(Zs(lows)), MaxOf(Zs(highs)), starts[i].z);
    }
    PartDensityAll(centres, ax);
  }

  /** `calc_distances`' test: the centre lies strictly within
      `vdw_radius + extra` of the atom. */
  predicate Near(c: Vec3, atom: ModelAtom, extra: real, sqrt: real -> real)
  {
    sqrt(SqDist(c, atom.pos)) < atom.vdwRadius + extra
  }

  /** With a true square root the test compares squared distances. */
  lemma NearIff(c: Vec3, atom: ModelAtom, extra: real, sqrt: real -> real)
    requires IsSqrt(sqrt)
    ensures Near(c, atom, extra, sqrt) <==>
            (0.0 < atom.vdwRadius + extra &&
             SqDist(c, atom.pos) < (atom.vdwRadius + extra) * (atom.vdwRadius + extra))
  {
    SqNormNonNegative(Sub(c, atom.pos));
    SqrtLess(sqrt, SqDist(c, atom.pos), atom.vdwRadius + extra);
  }

  /** Some atom has the centre within reach. */
  predicate Covered(c: Vec3, atoms: seq<ModelAtom>, extra: real, sqrt: real -> real)
  {
    exists j :: 0 <= j < |atoms| && Near(c, atoms[j], extra, sqrt)
  }

  /** `np.where(in_vdw_vol == 0)`: the positions of the unmarked bins, in
      order. */
  function Unflagged(flags: seq<bool>): (r: seq<nat>)
    ensures forall k: nat :: k in r <==> k < |flags| && !flags[k]
    decreases |flags|
  {
    if flags == [] then []
    else
      var n := |flags| - 1;
      Unflagged(flags[..n]) + (if flags[n] then [] else [n])
  }

  /** `calc_distances`: marks each listed bin whose centre is within reach
      of the atom; no mark is ever removed. */
  method CalcDistances(flags: array<bool>, centres: seq<Vec3>, atom: ModelAtom, indices: seq<nat>,
                       extra: real, sqrt: real -> real)
    requires forall i :: 0 <= i < |indices| ==> indices[i] < flags.Length && indices[i] < |centres|
    modifies flags
    ensures forall k :: 0 <= k < flags.Length ==>
              flags[k] == (old(flags[k]) || (k in indices && Near(centres[k], atom, extra, sqrt)))
  {
    for i := 0 to |indices|
      invariant forall k :: 0 <= k < flags.Length ==>
                  flags[k] == (old(flags[k]) || (k in indices[..i] && Near(centres[k], atom, extra, sqrt)))
    {
      var idx := indices[i];
      assert indices[..i + 1] == indices[..i] + [idx];
      if sqrt(SqDist(centres[idx], atom.pos)) < atom.vdwRadius + extra {
        flags[idx] := true;
      }
    }
    assert indices[..|indices|] == indices;
  }

  /** `np.sum` of the 0/1 marks. */
  function CountTrue(flags: seq<bool>): (n: nat)
    ensures n <= |flags|
    decreases |flags|
  {
    if flags == [] then 0 else CountTrue(flags[..|flags| - 1]) + (if flags[|flags| - 1] then 1 else 0)
  }

  /** Number of centres within reach of some atom. */
  function CountCovered(centres: seq<Vec3>, atoms: seq<ModelAtom>, extra: real, sqrt: real -> real): (n: nat)
    ensures n <= |centres|
    decreases |centres|
  {
    if centres == [] then 0
    else
      var last := if Covered(centres[|centres| - 1], atoms, extra, sqrt) then 1 else 0;
      CountCovered(centres[..|centres| - 1], atoms, extra, sqrt) + last
  }

  /** No centre is counted exactly when none is within reach, and all are
      counted exactly when every one is. */
  lemma {:induction false} CountCoveredExtremes(centres: seq<Vec3>, atoms: seq<ModelAtom>, extra: real, sqrt: real -> real)
    ensures CountCovered(centres, atoms, extra, sqrt) == 0 <==>
            forall i :: 0 <= i < |centres| ==> !Covered(centres[i], atoms, extra, sqrt)
    ensures CountCovered(centres, atoms, extra, sqrt) == |centres| <==>
            forall i :: 0 <= i < |centres| ==> Covered(centres[i], atoms, extra, sqrt)
    decreases |centres|
  {
    if centres != [] {
      var p := centres[..|centres| - 1];
      CountCoveredExtremes(p, atoms, extra, sqrt);
      assert forall i :: 0 <= i < |p| ==> p[i] == centres[i];
    }
  }

  /** Marks that are exactly the covered centres count the covered
      centres. */
  lemma {:induction false} CountMarks(flags: seq<bool>, centres: seq<Vec3>, atoms: seq<ModelAtom>,
                                      extra: real, sqrt: real -> real)
    requires |flags| == |centres|
    requires forall k :: 0 <= k < |flags| ==> flags[k] == Covered(centres[k], atoms, extra, sqrt)
    ensures CountTrue(flags) == CountCovered(centres, atoms, extra, sqrt)
    decreases |flags|
  {
    if flags != [] {
      var n := |flags| - 1;
      CountMarks(flags[..n], centres[..n], atoms, extra, sqrt);
    }
  }

  /** Covered by the first `i + 1` atoms: by the first `i` or by atom `i`. */
  lemma CoveredNext(c: Vec3, atoms: seq<ModelAtom>, i: nat, extra: real, sqrt: real -> real)
    requires i < |atoms|
    ensures Covered(c, atoms[..i + 1], extra, sqrt) <==>
            (Covered(c, atoms[..i], extra, sqrt) || Near(c, atoms[i], extra, sqrt))
  {
    var p, q := atoms[..i], atoms[..i + 1];
    if Covered(c, q, extra, sqrt) && !Near(c, atoms[i], extra, sqrt) {
      var j :| 0 <= j < |q| && Near(c, q[j], extra, sqrt);
      assert j < i && p[j] == q[j];
    }
    if Covered(c, p, extra, sqrt) {
      var j :| 0 <= j < |p| && Near(c, p[j], extra, sqrt);
      assert q[j] == p[j];
    }
    if Near(c, atoms[i], extra, sqrt) {
      assert q[i] == atoms[i];
    }
  }

  /** The loop over the model atoms in `calc_vdw_vol_central`: each atom
      marks the still unmarked bins within its reach; the result is the
      number of marked bins. */
  method MarkBins(centres: seq<Vec3>, atoms: seq<ModelAtom>, extra: real, sqrt: real -> real)
    returns (marked: nat)
    ensures marked == CountCovered(centres, atoms, extra, sqrt)
  {
    var flags := new bool[|centres|](_ => false);
    for i := 0 to |atoms|
      invariant forall k :: 0 <= k < flags.Length ==> flags[k] == Covered(centres[k], atoms[..i], extra, sqrt)
    {
      var indices := Unflagged(flags[..]);
      assert forall j :: 0 <= j < |indices| ==> indices[j] in indices;
      CalcDistances(flags, centres, atoms[i], indices, extra, sqrt);
      forall k | 0 <= k < flags.Length
        ensures flags[k] == Covered(centres[k], atoms[..i + 1], extra, sqrt)
      {
        CoveredNext(centres[k], atoms, i, extra, sqrt);
      }
    }
    assert atoms[..|atoms|] == atoms;
    CountMarks(flags[..], centres, atoms, extra, sqrt);
    marked := CountTrue(flags[..]);
  }

  /** `n` bins of side `resolution`: `n * resolution**3`. */
  function BinVolume(n: nat, resolution: real): (v: real)
    requires 0.0 < resolution
    ensures 0.0 <= v && (v == 0.0 <==> n == 0)
  {
    var cube := resolution * resolution * resolution;
    assert 0.0 < cube;
    n as real * cube
  }

  /** The volume of the bins whose centre lies within reach of some atom. */
  function Volume(atoms: seq<ModelAtom>, extra: real, resolution: real, sqrt: real -> real): (v: real)
    requires atoms != [] && 0.0 < resolution
    ensures 0.0 <= v
  {
    BinVolume(CountCovered(VolumeCentres(atoms, extra, resolution), atoms, extra, sqrt), resolution)
  }

  /** `calc_vdw_vol_central`: the grid around the boxes of the atoms, the
      bins marked by the atoms, and their volume; the `ValueError` of the
      NaN bounds of an empty model. */
  method CalcVdwVolCentral(atoms: seq<ModelAtom>, extra: real, resolution: real, sqrt: real -> real)
    returns (r: Result<real>)
    requires 0.0 < resolution
    ensures r.Ok? <==> atoms != []
    ensures r.Ok? ==> r.value == Volume(atoms, extra, resolution, sqrt)
  {
    if atoms == [] {
      return Err(NaNBounds);
    }
    var ax := VolumeAxes(atoms, extra, resolution);
    var centres := Centres(GridStarts(ax), resolution);
    var part := PartDensity(centres, ax);
    PartDensityKeepsAll(atoms, extra, resolution);
    var marked := MarkBins(part, atoms, extra, sqrt);
    return Ok(BinVolume(marked, resolution));
  }

  /** `avg_fragment["label"].str.upper()`. */
  function UpperLabels(atoms: seq<ModelAtom>): (r: seq<ModelAtom>)
    ensures |r| == |atoms|
    ensures forall i :: 0 <= i < |atoms| ==> r[i] == atoms[i].(name := Upper(atoms[i].name))
  {
    seq(|atoms|, i requires 0 <= i < |atoms| => atoms[i].(name := Upper(atoms[i].name)))
  }

  /** `label.str.contains("R")`. */
  predicate IsR(atom: ModelAtom)
  {
    Contains(atom.name, "R")
  }

  /** The atoms whose label holds no "R", in order. */
  function WithoutR(atoms: seq<ModelAtom>): (r: seq<ModelAtom>)
    ensures |r| <= |atoms|
    decreases |atoms|
  {
    if atoms == [] then []
    else
      WithoutR(atoms[..|atoms| - 1]) + (if IsR(atoms[|atoms| - 1]) then [] else [atoms[|atoms| - 1]])
  }

  /** The atoms whose label holds an "R", in order. */
  function OnlyR(atoms: seq<ModelAtom>): (r: seq<ModelAtom>)
    ensures |r| <= |atoms|
    decreases |atoms|
  {
    if atoms == [] then []
    else
      OnlyR(atoms[..|atoms| - 1]) + (if IsR(atoms[|atoms| - 1]) then [atoms[|atoms| - 1]] else [])
  }

  /** The two selections split the model: every atom is in exactly one
      of them, and their sizes add up. */
  lemma {:induction false} SplitR(atoms: seq<ModelAtom>)
    ensures |WithoutR(atoms)| + |OnlyR(atoms)| == |atoms|
    ensures forall a :: a in WithoutR(atoms) <==> a in atoms && !IsR(a)
    ensures forall a :: a in OnlyR(atoms) <==> a in atoms && IsR(a)
    decreases |atoms|
  {
    if atoms != [] {
      var p := atoms[..|atoms| - 1];
      SplitR(p);
      assert atoms == p + [atoms[|atoms| - 1]];
    }
  }

  /** The volume `find_available_volume` returns: with `total`, the volume
      of the whole model reached with `extra`; otherwise the volume of the
      atoms without R reached with `extra`, less the bare volume of the
      model, plus half the bare volume of the R atoms (zero when there are
      none). */
  function AvailableVolume(atoms: seq<ModelAtom>, extra: real, total: bool, resolution: real,
                           sqrt: real -> real): real
    requires 0.0 < resolution
    requires atoms != [] && (total || WithoutR(UpperLabels(atoms)) != [])
  {
    var up := UpperLabels(atoms);
    if total then Volume(up, extra, resolution, sqrt)
    else
      Volume(WithoutR(up), extra, resolution, sqrt) -
      (Volume(up, 0.0, resolution, sqrt) -
       (if OnlyR(up) == [] then 0.0 else Volume(OnlyR(up), 0.0, resolution, sqrt)) / 2.0)
  }

  /** Without R atoms the available volume is the volume reached with
      `extra` less the bare volume of the same atoms. */
  lemma AvailableWithoutR(atoms: seq<ModelAtom>, extra: real, resolution: real, sqrt: real -> real)
    requires 0.0 < resolution && atoms != []
    requires forall i :: 0 <= i < |atoms| ==> !IsR(UpperLabels(atoms)[i])
    ensures WithoutR(UpperLabels(atoms)) == UpperLabels(atoms)
    ensures AvailableVolume(atoms, extra, false, resolution, sqrt) ==
            Volume(UpperLabels(atoms), extra, resolution, sqrt) - Volume(UpperLabels(atoms), 0.0, resolution, sqrt)
  {
    var up := UpperLabels(atoms);
    NoRKept(up);
    assert OnlyR(up) == [] by {
      SplitR(up);
    }
  }

  /** Atoms none of which has R in its label are all kept. */
  lemma {:induction false} NoRKept(atoms: seq<ModelAtom>)
    requires forall i :: 0 <= i < |atoms| ==> !IsR(atoms[i])
    ensures WithoutR(atoms) == atoms
    decreases |atoms|
  {
    if atoms != [] {
      NoRKept(atoms[..|atoms| - 1]);
      assert atoms == atoms[..|atoms| - 1] + [atoms[|atoms| - 1]];
    }
  }

  /** `find_available_volume`: with `total`, the volume of the whole model
      reached with `extra`; otherwise the volume of the atoms without R
      reached with `extra`, less the bare volume of the model, plus half the
      bare volume of the R atoms (zero when there are none).  An empty
      selection whose volume is needed fails as `calc_vdw_vol_central` does. */
  method FindAvailableVolume(atoms: seq<ModelAtom>, extra: real, total: bool, resolution: real,
                             sqrt: real -> real) returns (r: Result<real>)
    requires 0.0 < resolution
    ensures var up := UpperLabels(atoms);
            r.Ok? <==> atoms != [] && (total || WithoutR(up) != [])
    ensures r.Ok? ==> r.value == AvailableVolume(atoms, extra, total, resolution, sqrt)
  {
    var up := UpperLabels(atoms);
    var withoutR := WithoutR(up);
    var onlyR := OnlyR(up);
    if total {
      r := CalcVdwVolCentral(up, extra, resolution, sqrt);
      return;
    }
    var central := CalcVdwVolCentral(up, 0.0, resolution, sqrt);
    if central.Err? {
      return central;
    }
    var max := CalcVdwVolCentral(withoutR, extra, resolution, sqrt);
    if max.Err? {
      return max;
    }
    var rMin := 0.0;
    if |onlyR| > 0 {
      var bare := CalcVdwVolCentral(onlyR, 0.0, resolution, sqrt);
      rMin := bare.value;
    }
    return Ok(max.value - (central.value - rMin / 2.0));
  }
}
