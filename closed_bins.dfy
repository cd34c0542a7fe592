/** The counting of code/calc_density_4.py: every bin whose closed cube
    holds a contact point gets one more, so a point on a face shared by
    two bins is counted in both. */
module ClosedBins {
  import opened Wrappers
  import opened Vectors
  import opened Reals
  import opened DensityGrid

  /** `fill_bins`' test in this version: `start <= c` and
      `start + res >= c` on every axis. */
  predicate InClosedBin(s: Vec3, c: Vec3, resolution: real)
  {
    s.x <= c.x && s.x + resolution >= c.x &&
    s.y <= c.y && s.y + resolution >= c.y &&
    s.z <= c.z && s.z + resolution >= c.z
  }

  /** The cube checked here is the one the later `fill_bins` checks. */
  lemma SameCube(s: Vec3, c: Vec3, resolution: real)
    ensures InClosedBin(s, c, resolution) <==> InBin(s, c, resolution)
  {
  }

  /** Number of points in the closed cube starting at `s`. */
  function Containing(s: Vec3, points: seq<Vec3>, resolution: real): (n: nat)
    ensures n <= |points|
    decreases |points|
  {
    if points == [] then 0
    else
      var last := if InClosedBin(s, points[|points| - 1], resolution) then 1 else 0;
      Containing(s, points[..|points| - 1], resolution) + last
  }

  /** `amount[idx] += 1` for the bins `idx` holding `c`: those bins gain
      one, every other bin keeps its count. */
  method AddPoint(amount: array<real>, starts: seq<Vec3>, c: Vec3, resolution: real)
    requires amount.Length == |starts|
    modifies amount
    ensures forall k :: 0 <= k < amount.Length ==>
              amount[k] == old(amount[k]) + (if InClosedBin(starts[k], c, resolution) then 1.0 else 0.0)
  {
    for j := 0 to amount.Length
      invariant forall k :: 0 <= k < j ==>
                  amount[k] == old(amount[k]) + (if InClosedBin(starts[k], c, resolution) then 1.0 else 0.0)
      invariant forall k :: j <= k < amount.Length ==> amount[k] == old(amount[k])
    {
      if InClosedBin(starts[j], c, resolution) {
        amount[j] := amount[j] + 1.0;
      }
    }
  }

  /** `fill_bins`: after counting, each bin holds its old count plus the
      number of points in its closed cube; no count decreases. */
  method FillBins(amount: array<real>, starts: seq<Vec3>, points: seq<Vec3>, resolution: real)
    requires amount.Length == |starts|
    modifies amount
    ensures forall k :: 0 <= k < amount.Length ==>
              amount[k] == old(amount[k]) + Containing(starts[k], points, resolution) as real
  {
    for i := 0 to |points|
      invariant forall k :: 0 <= k < amount.Length ==>
                  amount[k] == old(amount[k]) + Containing(starts[k], points[..i], resolution) as real
    {
      assert points[..i + 1][..i] == points[..i];
      AddPoint(amount, starts, points[i], resolution);
    }
    assert points[..|points|] == points;
  }

  /** `count_points_per_square`: the counts from zero, one per bin. */
  method CountPointsPerSquare(starts: seq<Vec3>, points: seq<Vec3>, resolution: real) returns (counts: seq<real>)
    ensures |counts| == |starts|
    ensures forall k :: 0 <= k < |starts| ==> counts[k] == Containing(starts[k], points, resolution) as real
  {
    var amount := new real[|starts|](_ => 0.0);
    FillBins(amount, starts, points, resolution);
    counts := amount[..];
  }

  /** A point whose first bin is `k` lies in the closed cube of bin `k`,
      so the closed count of a bin is at least its first-match count. */
  lemma {:induction false} HitsBelowContaining(starts: seq<Vec3>, points: seq<Vec3>, resolution: real, k: nat)
    requires k < |starts|
    ensures Hits(starts, points, resolution, k) <= Containing(starts[k], points, resolution)
    decreases |points|
  {
    if points != [] {
      var p := points[..|points| - 1];
      HitsBelowContaining(starts, p, resolution, k);
      if FirstBin(starts, points[|points| - 1], resolution) == Some(k) {
        SameCube(starts[k], points[|points| - 1], resolution);
      }
    }
  }

  /** When every point lies in some bin the closed counts total at least
      the number of points. */
  lemma ClosedCountsCover(starts: seq<Vec3>, points: seq<Vec3>, resolution: real, counts: seq<real>)
    requires |counts| == |starts|
    requires forall k :: 0 <= k < |starts| ==> counts[k] == Containing(starts[k], points, resolution) as real
    requires forall i :: 0 <= i < |points| ==> FirstBin(starts, points[i], resolution).Some?
    ensures |points| as real <= Sum(counts)
  {
    var zeros := seq(|starts|, _ => 0.0);
    SumZeroIff(zeros);
    var first := Filled(zeros, starts, points, resolution);
    forall k | 0 <= k < |starts|
      ensures first[k] <= counts[k]
    {
      FilledAt(zeros, starts, points, resolution, k);
      HitsBelowContaining(starts, points, resolution, k);
    }
    SumLe(first, counts);
    FilledSum(zeros, starts, points, resolution);
    MatchedAll(starts, points, resolution);
  }

  /** An instance: with resolution 1, bins starting at the origin and at
      (1, 0, 0), the point (1, 0, 0) lies on their shared face and is
      counted twice, so one point gives a total of 2; the first-match
      count puts it in bin 0 only. */
  lemma DoubleCounted()
    ensures var starts := [Vec3(0.0, 0.0, 0.0), Vec3(1.0, 0.0, 0.0)];
            var points := [Vec3(1.0, 0.0, 0.0)];
            Containing(starts[0], points, 1.0) == 1 && Containing(starts[1], points, 1.0) == 1 &&
            Hits(starts, points, 1.0, 0) == 1 && Hits(starts, points, 1.0, 1) == 0
  {
    var starts := [Vec3(0.0, 0.0, 0.0), Vec3(1.0, 0.0, 0.0)];
    var points := [Vec3(1.0, 0.0, 0.0)];
    assert points[..0] == [];
    assert FirstBin(starts, points[0], 1.0) == Some(0);
  }
}
