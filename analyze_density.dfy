/** The analysis of a counted density grid (code/analyze_density.py): how
    many bins hold 80 % of the contact points, and how many bins lie within
    the van der Waals reach of the averaged central group. */
module AnalyzeDensity {
  import opened Wrappers
  import opened Vectors
  import opened Reals
  import opened Sorting
  import opened DensityVolume

  /** The positive counts, in grid order. */
  function Positives(counts: seq<real>): (r: seq<real>)
    ensures |r| <= |counts|
    ensures forall x :: x in r <==> x in counts && 0.0 < x
    decreases |counts|
  {
    if counts == [] then []
    else
      var n := |counts| - 1;
      Positives(counts[..n]) + (if 0.0 < counts[n] then [counts[n]] else [])
  }

  /** Of non-negative counts, the positive ones are the non-zero ones, and
      they carry the whole total. */
  lemma {:induction false} PositivesSpec(counts: seq<real>)
    requires forall i :: 0 <= i < |counts| ==> 0.0 <= counts[i]
    ensures forall x :: x in Positives(counts) <==> x in counts && 0.0 < x
    ensures Sum(Positives(counts)) == Sum(counts)
    decreases |counts|
  {
    if counts != [] {
      var n := |counts| - 1;
      var p := counts[..n];
      PositivesSpec(p);
      assert counts == p + [counts[n]];
      var tail := if 0.0 < counts[n] then [counts[n]] else [];
      SumAppend(Positives(p), tail);
      assert tail == [] ==> counts[n] == 0.0;
    }
  }

  /** The counts never increase along `s`. */
  predicate Descending(s: seq<real>)
  {
    forall i, j :: 0 <= i < j < |s| ==> s[j] <= s[i]
  }

  /** Each count keyed by its negation, so that ascending keys put the
      largest count first. */
  function Keyed(s: seq<real>): (r: seq<Scored<real>>)
    ensures |r| == |s|
  {
    seq(|s|, i requires 0 <= i < |s| => Scored(s[i], -s[i]))
  }

  /** `population.sort(reverse=True)`. */
  function SortDescending(s: seq<real>): (r: seq<real>)
    ensures |r| == |s|
  {
    Items(SortByScore(Keyed(s)))
  }

  /** The sorted counts are in non-increasing order and are the same
      counts. */
  lemma SortDescendingSpec(s: seq<real>)
    ensures Descending(SortDescending(s))
    ensures multiset(SortDescending(s)) == multiset(s)
  {
    var k := Keyed(s);
    var sorted := SortByScore(k);
    SortByScoreSpec(k);
    SortKeepsItems(k);
    assert Items(k) == s;
    forall i | 0 <= i < |sorted|
      ensures sorted[i].score == -sorted[i].item
    {
      assert sorted[i] in multiset(k);
    }
  }

  /** The first `k` counts of `population` reach 80 % of `total`, summed
      as fractions of the total. */
  predicate Reaches80(population: seq<real>, total: real, k: nat)
    requires k <= |population| && total != 0.0
  {
    0.8 <= Sum(population[..k]) / total
  }

  /** Result of `calculate_80_percent`. */
  datatype Coverage = Coverage(emptyBins: nat, bins80: nat)

  /** Python's message when `population[i]` runs past the list. */
  const IndexError := "list index out of range"

  /** `calculate_80_percent`: the number of empty bins, and the smallest
      number of the largest counts that hold at least 80 % of the total.
      With a zero total there is no positive count and the first
      `population[0]` fails. */
  method Calculate80Percent(counts: seq<real>) returns (r: Result<Coverage>)
    requires forall i :: 0 <= i < |counts| ==> 0.0 <= counts[i]
    ensures r.Ok? <==> 0.0 < Sum(counts)
    ensures r.Ok? ==> r.value.emptyBins == |counts| - |Positives(counts)|
    ensures r.Ok? ==> 1 <= r.value.bins80 <= |Positives(counts)|
    ensures r.Ok? ==> var population := SortDescending(Positives(counts));
              Reaches80(population, Sum(counts), r.value.bins80) &&
              forall k :: 0 <= k < r.value.bins80 ==> !Reaches80(population, Sum(counts), k)
  {
    var total := Sum(counts);
    var population := SortDescending(Positives(counts));
    PopulationFacts(counts);
    var emptyBins := |counts| - |population|;
    var fraction := 0.0;
    var i := 0;
    while fraction < 0.8
      invariant i <= |population|
      invariant population == [] ==> i == 0 && fraction == 0.0
      invariant population != [] ==> fraction == Sum(population[..i]) / total
      invariant population != [] ==> forall k :: 0 <= k < i ==> !Reaches80(population, total, k)
      decreases |population| - i
    {
      if i == |population| {
        assert population[..i] == population;
        WholeFraction(Sum(population), total, fraction);
        return Err(IndexError);
      }
      PrefixStep(population, i, total);
      fraction := fraction + population[i] / total;
      i := i + 1;
    }
    r := Ok(Coverage(emptyBins, i));
  }

  /** Every count taken is the whole total. */
  lemma WholeFraction(all: real, total: real, fraction: real)
    requires 0.0 < total ==> all == total && fraction == all / total
    ensures 0.0 < total ==> fraction == 1.0
  {
  }

  /** The sorted positive counts: positive, summing to the total, and
      present exactly when the total is positive. */
  lemma PopulationFacts(counts: seq<real>)
    requires forall i :: 0 <= i < |counts| ==> 0.0 <= counts[i]
    ensures var population := SortDescending(Positives(counts));
            Sum(population) == Sum(counts) &&
            (forall i :: 0 <= i < |population| ==> 0.0 < population[i]) &&
            (population != [] <==> 0.0 < Sum(counts))
  {
    var positives := Positives(counts);
    PositivesSpec(counts);
    forall i | 0 <= i < |positives|
      ensures 0.0 < positives[i]
    {
      assert positives[i] in positives;
    }
    SortedPositives(positives);
  }

  /** Sorting positive counts keeps them positive and keeps their sum. */
  lemma SortedPositives(s: seq<real>)
    requires forall i :: 0 <= i < |s| ==> 0.0 < s[i]
    ensures var sorted := SortDescending(s);
            Sum(sorted) == Sum(s) &&
            (forall i :: 0 <= i < |sorted| ==> 0.0 < sorted[i]) &&
            (sorted != [] <==> 0.0 < Sum(s))
  {
    var sorted := SortDescending(s);
    SortDescendingSpec(s);
    SumPermutation(sorted, s);
    forall i | 0 <= i < |sorted|
      ensures 0.0 < sorted[i]
    {
      assert sorted[i] in multiset(s);
    }
    if sorted != [] {
      PositiveTerm(sorted, 0);
    }
  }

  /** One more count adds its fraction of the total. */
  lemma PrefixStep(population: seq<real>, i: nat, total: real)
    requires i < |population| && total != 0.0
    ensures Sum(population[..i + 1]) / total == Sum(population[..i]) / total + population[i] / total
  {
    assert population[..i + 1][..i] == population[..i];
  }

  /** A non-empty list of positive counts has a positive sum. */
  lemma PositiveTerm(population: seq<real>, k: nat)
    requires k < |population|
    requires forall i :: 0 <= i < |population| ==> 0.0 < population[i]
    ensures 0.0 < Sum(population)
  {
    SumBoundsTerm(population, k);
  }

  /** `extra_radius`' default in `count_bins_in_vdw`. */
  const DefaultExtraRadius := 0.5

  /** `count_bins_in_vdw` with `calc_distances`: the bin centres are the
      starts moved half a bin along each axis, and a bin counts when its
      centre lies strictly within `vdw_radius + vdw_distance_contact +
      extra_radius` of some atom of the averaged fragment. */
  method CountBinsInVdw(starts: seq<Vec3>, resolution: real, atoms: seq<ModelAtom>,
                        vdwDistanceContact: real, extraRadius: real, sqrt: real -> real)
    returns (total: nat)
    ensures total == CountCovered(Centres(starts, resolution), atoms, vdwDistanceContact + extraRadius, sqrt)
    ensures total <= |starts|
  {
    total := MarkBins(Centres(starts, resolution), atoms, vdwDistanceContact + extraRadius, sqrt);
  }

  /** A longer reach never counts fewer bins. */
  lemma {:induction false} ReachMonotone(centres: seq<Vec3>, atoms: seq<ModelAtom>, e1: real, e2: real,
                                         sqrt: real -> real)
    requires e1 <= e2
    ensures CountCovered(centres, atoms, e1, sqrt) <= CountCovered(centres, atoms, e2, sqrt)
    decreases |centres|
  {
    if centres != [] {
      var n := |centres| - 1;
      ReachMonotone(centres[..n], atoms, e1, e2, sqrt);
      if Covered(centres[n], atoms, e1, sqrt) {
        var j :| 0 <= j < |atoms| && Near(centres[n], atoms[j], e1, sqrt);
        assert Near(centres[n], atoms[j], e2, sqrt);
      }
    }
  }
}
