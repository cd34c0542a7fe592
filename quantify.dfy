/** The directionality arithmetic of src/quantify.py: the counted contact
    points normalised to fractions, the cluster of bins holding at least a
    threshold share of the fullest bin, and the directionality that
    compares the cluster's share of the data with its share of the
    available volume. */
module Quantify {
  import opened Wrappers
  import opened Reals
  import opened DensityGrid
  import opened DensityVolume

  /** `tolerance`, added to the contact group's radius as the volume's
      extra reach. */
  const Tolerance := 0.5

  /** Resolution `find_available_volume` uses when none is passed. */
  const VolumeResolution := 0.1

  /** The fractions at or above `cut`, in grid order. */
  function Above(s: seq<real>, cut: real): (r: seq<real>)
    ensures |r| <= |s|
    decreases |s|
  {
    if s == [] then []
    else
      var n := |s| - 1;
      Above(s[..n], cut) + (if cut <= s[n] then [s[n]] else [])
  }

  /** The selected fractions are those at or above the cut; of
      non-negative fractions they hold at most the whole sum. */
  lemma {:induction false} AboveSpec(s: seq<real>, cut: real)
    ensures forall x :: x in Above(s, cut) <==> x in s && cut <= x
    ensures (forall i :: 0 <= i < |s| ==> 0.0 <= s[i]) ==> 0.0 <= Sum(Above(s, cut)) <= Sum(s)
    decreases |s|
  {
    if s != [] {
      var n := |s| - 1;
      var p := s[..n];
      AboveSpec(p, cut);
      assert s == p + [s[n]];
      var tail := if cut <= s[n] then [s[n]] else [];
      SumAppend(Above(p, cut), tail);
    }
  }

  /** `in_cluster` summarised: its share of the data, its number of bins
      and its volume `len(in_cluster) * resolution**3`. */
  datatype Cluster = Cluster(datafrac: real, bins: nat, volume: real)

  /** `threshold_calc`: the largest fraction times the threshold. */
  function Cut(fractions: seq<real>, threshold: real): real
    requires fractions != []
  {
    MaxOf(fractions) * threshold
  }

  /** The bins whose fraction is at least `threshold` times the largest
      fraction. */
  function FindCluster(fractions: seq<real>, threshold: real, resolution: real): (c: Cluster)
    requires fractions != []
    ensures c.bins <= |fractions|
  {
    var members := Above(fractions, Cut(fractions, threshold));
    Cluster(Sum(members), |members|, |members| as real * (resolution * resolution * resolution))
  }

  /** With fractions summing to one and a threshold of at most one the
      fullest bin is in the cluster, so the cluster is non-empty, holds a
      positive share of at most all of the data, and has a positive
      volume; above one the cluster is empty. */
  lemma ClusterBounds(fractions: seq<real>, threshold: real, resolution: real)
    requires fractions != [] && 0.0 < resolution
    requires forall i :: 0 <= i < |fractions| ==> 0.0 <= fractions[i]
    requires Sum(fractions) == 1.0
    ensures var c := FindCluster(fractions, threshold, resolution);
            (1 <= c.bins <==> threshold <= 1.0) &&
            (threshold <= 1.0 ==> 0.0 < c.datafrac <= 1.0 && 0.0 < c.volume)
  {
    var m := MaxOf(fractions);
    var j :| 0 <= j < |fractions| && fractions[j] == m;
    ClusterAround(fractions, m, threshold, Cut(fractions, threshold), resolution);
  }

  /** `ClusterBounds` with the largest fraction `m` named. */
  lemma ClusterAround(fractions: seq<real>, m: real, threshold: real, cut: real, resolution: real)
    requires 0.0 < resolution && m in fractions && cut == m * threshold
    requires forall i :: 0 <= i < |fractions| ==> 0.0 <= fractions[i] <= m
    requires Sum(fractions) == 1.0
    ensures var members := Above(fractions, cut);
            (members != [] <==> threshold <= 1.0) &&
            (threshold <= 1.0 ==> 0.0 < Sum(members) <= 1.0 &&
                                  0.0 < |members| as real * (resolution * resolution * resolution))
  {
    MaxPositive(fractions, m);
    if threshold <= 1.0 {
      ScaleDown(m, threshold);
      MembersHoldMax(fractions, cut, m);
      CubePositive(resolution, |Above(fractions, cut)|);
    } else {
      ScaleUp(m, threshold);
      NoMembers(fractions, cut);
    }
  }

  /** `n` bins of a positive resolution have a positive volume. */
  lemma CubePositive(resolution: real, n: nat)
    requires 0.0 < resolution && 1 <= n
    ensures 0.0 < n as real * (resolution * resolution * resolution)
  {
    assert 0.0 < resolution * resolution;
    assert 0.0 < resolution * resolution * resolution;
  }

  /** A threshold of at most one keeps the cut at or below the maximum. */
  lemma ScaleDown(m: real, t: real)
    requires 0.0 < m && t <= 1.0
    ensures m * t <= m
  {
    assert m * t <= m * 1.0;
  }

  /** A threshold above one puts the cut above the maximum. */
  lemma ScaleUp(m: real, t: real)
    requires 0.0 < m && 1.0 < t
    ensures m < m * t
  {
    assert m * 1.0 < m * t;
  }

  /** A positive fraction at or above the cut puts a positive share of at
      most the whole sum in the cluster. */
  lemma MembersHoldMax(s: seq<real>, cut: real, m: real)
    requires forall i :: 0 <= i < |s| ==> 0.0 <= s[i]
    requires m in s && 0.0 < m && cut <= m
    ensures Above(s, cut) != [] && 0.0 < Sum(Above(s, cut)) <= Sum(s)
  {
    var members := Above(s, cut);
    AboveSpec(s, cut);
    assert m in members;
    var k :| 0 <= k < |members| && members[k] == m;
    forall i | 0 <= i < |members|
      ensures 0.0 <= members[i]
    {
      assert members[i] in members;
    }
    SumBoundsTerm(members, k);
  }

  /** With every fraction below the cut the cluster is empty. */
  lemma {:induction false} NoMembers(s: seq<real>, cut: real)
    requires forall i :: 0 <= i < |s| ==> s[i] < cut
    ensures Above(s, cut) == []
    decreases |s|
  {
    if s != [] {
      NoMembers(s[..|s| - 1], cut);
    }
  }

  /** Non-negative fractions summing to one have a positive maximum. */
  lemma MaxPositive(fractions: seq<real>, m: real)
    requires forall i :: 0 <= i < |fractions| ==> 0.0 <= fractions[i] <= m
    requires Sum(fractions) == 1.0
    ensures 0.0 < m
  {
    if m <= 0.0 {
      SumZeroIff(fractions);
    }
  }

  /** `directionality = datafrac / Vcluster * (Vavailable / 2)`. The value
      is `NaN` when the counts total zero (every fraction is `0/0`) or the
      threshold exceeds one (the cluster is empty and `Vcluster` zero);
      both are `None` here. */
  function Directionality(counts: seq<real>, threshold: real, resolution: real, available: real): (r: Option<real>)
    requires forall i :: 0 <= i < |counts| ==> 0.0 <= counts[i]
    requires 0.0 < resolution
    ensures r.Some? <==> 0.0 < Sum(counts) && threshold <= 1.0
    ensures r.Some? ==> var c := FindCluster(Normalise(counts).value, threshold, resolution);
              0.0 < c.datafrac <= 1.0 && 1 <= c.bins <= |counts| &&
              r.value * c.volume == c.datafrac * (available / 2.0)
  {
    SumNonNegative(counts);
    match Normalise(counts)
    case None => None
    case Some(fractions) =>
      FractionsNonNegative(counts);
      ClusterBounds(fractions, threshold, resolution);
      var c := FindCluster(fractions, threshold, resolution);
      if c.bins == 0 then None
      else Some(c.datafrac / c.volume * (available / 2.0))
  }

  /** Fractions of non-negative counts are non-negative. */
  lemma FractionsNonNegative(counts: seq<real>)
    requires forall i :: 0 <= i < |counts| ==> 0.0 <= counts[i]
    requires Normalise(counts).Some?
    ensures forall i :: 0 <= i < |counts| ==> 0.0 <= Normalise(counts).value[i]
  {
    forall i | 0 <= i < |counts|
      ensures 0.0 <= Normalise(counts).value[i]
    {
      NormaliseBounds(counts, i, i);
    }
  }

  /** Steps 6 and 7 of `main`: the available volume with the tolerance
      added to the contact group's radius, then the directionality. */
  method QuantifyDirectionality(counts: seq<real>, atoms: seq<ModelAtom>, contactRadius: real,
                                threshold: real, resolution: real, sqrt: real -> real)
    returns (r: Result<Option<real>>)
    requires forall i :: 0 <= i < |counts| ==> 0.0 <= counts[i]
    requires 0.0 < resolution
    ensures r.Ok? <==> atoms != [] && WithoutR(UpperLabels(atoms)) != []
    ensures r.Ok? ==> r.value == Directionality(counts, threshold, resolution,
                                                AvailableVolume(atoms, Tolerance + contactRadius, false,
                                                                VolumeResolution, sqrt))
  {
    var available := FindAvailableVolume(atoms, Tolerance + contactRadius, false, VolumeResolution, sqrt);
    if available.Err? {
      return Err(available.error);
    }
    r := Ok(Directionality(counts, threshold, resolution, available.value));
  }
}
