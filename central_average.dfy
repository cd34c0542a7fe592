/** `average_fragment` of code/src/scripts/helpers/geometry_helpers.py: the
    central group averaged over all fragments, one atom per label, with the
    radii the closest-atom search uses. */
module CentralAverage {
  import opened Wrappers
  import opened Vectors
  import opened Reals
  import opened Lists
  import opened Text
  import opened RadiiTable
  import opened ContactGeometry

  /** `df[df['label'] != '-']`. */
  function CentralRows(df: seq<AlignedRow>): (r: seq<AlignedRow>)
    ensures forall row :: row in r <==> row in df && row.atomLabel != ContactLabel
    decreases |df|
  {
    if df == [] then []
    else
      var n := |df| - 1;
      assert df == df[..n] + [df[n]];
      CentralRows(df[..n]) + (if df[n].atomLabel != ContactLabel then [df[n]] else [])
  }

  /** A label standing for the variable R position. */
  predicate IsR(atomLabel: string)
  {
    Contains(atomLabel, "R")
  }

  /** The symbols of the rows on an R position, in row order. */
  function RSymbols(central: seq<AlignedRow>): (r: seq<string>)
    ensures |r| <= |central|
    ensures forall x :: x in r <==>
      exists i :: 0 <= i < |central| && IsR(central[i].atomLabel) && central[i].symbol == x
    decreases |central|
  {
    if central == [] then []
    else
      var n := |central| - 1;
      RSymbols(central[..n]) + (if IsR(central[n].atomLabel) then [central[n].symbol] else [])
  }

  /** A row on an R position contributes its symbol. */
  lemma {:induction false} RSymbolsPresent(central: seq<AlignedRow>, i: nat)
    requires i < |central| && IsR(central[i].atomLabel)
    ensures RSymbols(central) != []
    decreases |central|
  {
    if i < |central| - 1 {
      RSymbolsPresent(central[..|central| - 1], i);
    }
  }

  /** One entry of `value_counts()`. */
  datatype SymbolCount = SymbolCount(symbol: string, count: nat)

  /** How often `x` occurs in `s`. */
  function Occurrences(s: seq<string>, x: string): nat
    decreases |s|
  {
    if s == [] then 0
    else Occurrences(s[..|s| - 1], x) + (if s[|s| - 1] == x then 1 else 0)
  }

  /** The count of each id of `ids` in `s`. */
  function Counted(s: seq<string>, ids: seq<string>): (r: seq<SymbolCount>)
    ensures |r| == |ids|
    ensures forall k :: 0 <= k < |r| ==> r[k] == SymbolCount(ids[k], Occurrences(s, ids[k]))
    decreases |ids|
  {
    if ids == [] then []
    else
      var n := |ids| - 1;
      Counted(s, ids[..n]) + [SymbolCount(ids[n], Occurrences(s, ids[n]))]
  }

  /** `value_counts()`: each symbol once, with how often it occurs. */
  function ValueCounts(s: seq<string>): (r: seq<SymbolCount>)
    ensures |r| == |Unique(s)|
    ensures forall k :: 0 <= k < |r| ==> r[k].symbol in s && r[k].count == Occurrences(s, r[k].symbol)
    ensures forall x :: x in s ==> exists k :: 0 <= k < |r| && r[k].symbol == x
  {
    Counted(s, Unique(s))
  }

  /** The sum of the counts. */
  function Total(counts: seq<SymbolCount>): nat
    decreases |counts|
  {
    if counts == [] then 0
    else Total(counts[..|counts| - 1]) + counts[|counts| - 1].count
  }

  /** A value that does not occur is counted zero times. */
  lemma {:induction false} OccurrencesAbsent(s: seq<string>, x: string)
    requires x !in s
    ensures Occurrences(s, x) == 0
    decreases |s|
  {
    if s != [] {
      OccurrencesAbsent(s[..|s| - 1], x);
    }
  }

  /** One more value adds one to the counts over ids holding it once. */
  lemma {:induction false} CountedStep(s: seq<string>, x: string, ids: seq<string>)
    requires Distinct(ids)
    ensures Total(Counted(s + [x], ids)) == Total(Counted(s, ids)) + (if x in ids then 1 else 0)
    decreases |ids|
  {
    assert (s + [x])[..|s|] == s;
    if ids != [] {
      var n := |ids| - 1;
      var q := ids[..n];
      assert Distinct(q);
      assert ids == q + [ids[n]];
      assert ids[n] !in q by {
        forall i | 0 <= i < n
          ensures q[i] != ids[n]
        {
          assert q[i] == ids[i];
        }
      }
      CountedStep(s, x, q);
      assert Counted(s + [x], ids)[..n] == Counted(s + [x], q);
      assert Counted(s, ids)[..n] == Counted(s, q);
    }
  }

  /** The counts of `value_counts()` add up to the number of values. */
  lemma {:induction false} ValueCountsTotal(s: seq<string>)
    ensures Total(ValueCounts(s)) == |s|
    decreases |s|
  {
    if s != [] {
      var n := |s| - 1;
      var t := s[..n];
      var x := s[n];
      assert s == t + [x];
      ValueCountsTotal(t);
      var u := Unique(t);
      CountedStep(t, x, u);
      if x !in u {
        assert Unique(s) == u + [x];
        CountedNew(t, x, u);
      }
    }
  }

  /** Counting one more value that is new to the distinct `ids`, with the
      value added to them, adds one to the total. */
  lemma CountedNew(t: seq<string>, x: string, ids: seq<string>)
    requires Distinct(ids) && x !in ids && x !in t
    ensures Total(Counted(t + [x], ids + [x])) == Total(Counted(t, ids)) + 1
  {
    var v := ids + [x];
    DistinctAppend(ids, x);
    CountedStep(t, x, v);
    CountedStep(t, x, ids);
    assert v[..|ids|] == ids;
    assert Counted(t, v)[..|ids|] == Counted(t, ids);
    OccurrencesAbsent(t, x);
  }

  /** The van der Waals radius, or with `cov` the covalent one. */
  function RadiusOf(table: seq<RadiiRow>, symbol: string, cov: bool): Result<real>
  {
    if cov then CovOf(table, symbol) else VdwOf(table, symbol)
  }

  /** Both radii of every counted symbol can be read. */
  predicate AllKnown(counts: seq<SymbolCount>, table: seq<RadiiRow>)
  {
    forall i :: 0 <= i < |counts| ==> VdwOf(table, counts[i].symbol).Ok? && CovOf(table, counts[i].symbol).Ok?
  }

  /** The radius read for each counted symbol. */
  function Radii(counts: seq<SymbolCount>, table: seq<RadiiRow>, cov: bool): (r: seq<real>)
    requires AllKnown(counts, table)
    ensures |r| == |counts|
    ensures forall i :: 0 <= i < |counts| ==> RadiusOf(table, counts[i].symbol, cov) == Ok(r[i])
  {
    seq(|counts|, i requires 0 <= i < |counts| && AllKnown(counts, table) => RadiusOf(table, counts[i].symbol, cov).value)
  }

  /** `count * radius` for one counted symbol. */
  function Term(c: SymbolCount, radius: real): real
  {
    c.count as real * radius
  }

  /** Σ count · radius over the counted symbols. */
  function Weighted(counts: seq<SymbolCount>, radii: seq<real>): real
    requires |radii| == |counts|
    decreases |counts|
  {
    if counts == [] then 0.0
    else
      var n := |counts| - 1;
      Weighted(counts[..n], radii[..n]) + Term(counts[n], radii[n])
  }

  /** The averaged radii of the R position. */
  datatype AverageRadii = AverageRadii(vdw: real, cov: real)

  /** One more symbol of `c` atoms at radius `r` keeps the weighted sum
      between `lo` and `hi` times the total count. */
  lemma BetweenStep(w: real, t: real, c: real, r: real, lo: real, hi: real)
    requires lo * t <= w <= hi * t && 0.0 <= c && lo <= r <= hi
    ensures lo * (t + c) <= w + c * r <= hi * (t + c)
  {
    assert c * lo <= c * r <= c * hi;
  }

  /** With every radius between `lo` and `hi`, the weighted sum lies
      between `lo` and `hi` times the total count. */
  lemma {:induction false} WeightedBetween(counts: seq<SymbolCount>, radii: seq<real>, lo: real, hi: real)
    requires |radii| == |counts|
    requires forall i :: 0 <= i < |radii| ==> lo <= radii[i] <= hi
    ensures lo * (Total(counts) as real) <= Weighted(counts, radii) <= hi * (Total(counts) as real)
    decreases |counts|
  {
    if counts != [] {
      var n := |counts| - 1;
      WeightedBetween(counts[..n], radii[..n], lo, hi);
      BetweenStep(Weighted(counts[..n], radii[..n]), Total(counts[..n]) as real, counts[n].count as real, radii[n], lo, hi);
      assert Term(counts[n], radii[n]) == counts[n].count as real * radii[n];
    }
  }

  /** A quotient of a value between `lo * t` and `hi * t` by `t` lies
      between `lo` and `hi`. */
  lemma QuotientBetween(w: real, t: nat, lo: real, hi: real)
    requires 0 < t && lo * (t as real) <= w <= hi * (t as real)
    ensures lo <= w / (t as real) <= hi
  {
  }

  /** The weighted mean `w / t` lies between the smallest and the largest
      of the radii. */
  lemma MeanBetween(counts: seq<SymbolCount>, radii: seq<real>, lo: real, hi: real, w: real, t: nat)
    requires |radii| == |counts| && w == Weighted(counts, radii) && t == Total(counts) && 0 < t
    requires forall i :: 0 <= i < |radii| ==> lo <= radii[i] <= hi
    ensures lo <= w / (t as real) <= hi
  {
    WeightedBetween(counts, radii, lo, hi);
    QuotientBetween(w, t, lo, hi);
  }

  /** One more counted symbol adds its count and its weighted radius. */
  lemma AddStep(counts: seq<SymbolCount>, radii: seq<real>, c: SymbolCount, x: real)
    requires |radii| == |counts|
    ensures Total(counts + [c]) == Total(counts) + c.count
    ensures Weighted(counts + [c], radii + [x]) == Weighted(counts, radii) + Term(c, x)
  {
    assert (counts + [c])[..|counts|] == counts;
    assert (radii + [x])[..|radii|] == radii;
  }

  /** `radii` are the radii read, one by one, for the counted symbols. */
  predicate ReadAs(counts: seq<SymbolCount>, table: seq<RadiiRow>, cov: bool, radii: seq<real>)
  {
    |radii| == |counts| &&
    forall k :: 0 <= k < |counts| ==> RadiusOf(table, counts[k].symbol, cov) == Ok(radii[k])
  }

  /** Reading one more radius extends what was read. */
  lemma ReadStep(counts: seq<SymbolCount>, table: seq<RadiiRow>, cov: bool, radii: seq<real>, c: SymbolCount, x: real)
    requires ReadAs(counts, table, cov, radii) && RadiusOf(table, c.symbol, cov) == Ok(x)
    ensures ReadAs(counts + [c], table, cov, radii + [x])
  {
  }

  /** Radii read for every counted symbol are the ones `Radii` gives. */
  lemma ReadAll(counts: seq<SymbolCount>, table: seq<RadiiRow>, vdws: seq<real>, covs: seq<real>)
    requires ReadAs(counts, table, false, vdws) && ReadAs(counts, table, true, covs)
    ensures AllKnown(counts, table)
    ensures vdws == Radii(counts, table, false) && covs == Radii(counts, table, true)
  {
  }

  /** A radius that cannot be read leaves the counts not all known. */
  lemma Unknown(counts: seq<SymbolCount>, table: seq<RadiiRow>, i: nat)
    requires i < |counts| && VdwOf(table, counts[i].symbol).Err?
    ensures !AllKnown(counts, table)
  {
  }

  /** The running sums of code/src/scripts/helpers/geometry_helpers.py:229-234. */
  datatype Sums = Sums(atoms: nat, vdw: real, cov: real)

  /** code/src/scripts/helpers/geometry_helpers.py:229-234: the loop over `counts.items()`, adding each count and
      count times each radius; the first radius that cannot be read stops
      it. */
  method AddCounts(counts: seq<SymbolCount>, table: seq<RadiiRow>) returns (r: Result<Sums>)
    ensures r.Ok? <==> AllKnown(counts, table)
    ensures r.Err? ==> r.error == VdwMissing
    ensures r.Ok? ==> r.value == Sums(Total(counts), Weighted(counts, Radii(counts, table, false)),
                                      Weighted(counts, Radii(counts, table, true)))
  {
    var vdw, cov := 0.0, 0.0;
    var atoms: nat := 0;
    ghost var vdws: seq<real> := [];
    ghost var covs: seq<real> := [];
    for i := 0 to |counts|
      invariant ReadAs(counts[..i], table, false, vdws) && ReadAs(counts[..i], table, true, covs)
      invariant atoms == Total(counts[..i])
      invariant vdw == Weighted(counts[..i], vdws)
      invariant cov == Weighted(counts[..i], covs)
    {
      var v := VdwOf(table, counts[i].symbol);
      if v.Err? {
        Unknown(counts, table, i);
        return Err(v.error);
      }
      // The table has the symbol once, so the covalent read succeeds too.
      var c := CovOf(table, counts[i].symbol);
      assert counts[..i + 1] == counts[..i] + [counts[i]];
      AddStep(counts[..i], vdws, counts[i], v.value);
      AddStep(counts[..i], covs, counts[i], c.value);
      ReadStep(counts[..i], table, false, vdws, counts[i], v.value);
      ReadStep(counts[..i], table, true, covs, counts[i], c.value);
      atoms := atoms + counts[i].count;
      vdw := vdw + Term(counts[i], v.value);
      cov := cov + Term(counts[i], c.value);
      vdws := vdws + [v.value];
      covs := covs + [c.value];
    }
    assert counts[..|counts|] == counts;
    ReadAll(counts, table, vdws, covs);
    r := Ok(Sums(atoms, vdw, cov));
  }

  /** What code/src/scripts/helpers/geometry_helpers.py:211-236 leaves: nothing without a row on an R position,
      the failed read of a radius, or both weighted means. */
  function RAverageValue(s: seq<string>, table: seq<RadiiRow>): (r: Result<Option<AverageRadii>>)
    ensures r.Ok? <==> s == [] || AllKnown(ValueCounts(s), table)
    ensures r == Ok(None) <==> s == []
  {
    if s == [] then Ok(None)
    else if AllKnown(ValueCounts(s), table) then
      var counts := ValueCounts(s);
      Ok(Some(AverageRadii(Weighted(counts, Radii(counts, table, false)) / |s| as real,
                           Weighted(counts, Radii(counts, table, true)) / |s| as real)))
    else Err(VdwMissing)
  }

  /** code/src/scripts/helpers/geometry_helpers.py:211-236: the occurrence-weighted mean Σ count · radius / Σ count
      of the radii of the symbols on R positions. */
  method RAverage(s: seq<string>, table: seq<RadiiRow>) returns (r: Result<Option<AverageRadii>>)
    ensures r == RAverageValue(s, table)
  {
    if s == [] {
      return Ok(None);
    }
    var counts := ValueCounts(s);
    ValueCountsTotal(s);
    var sums := AddCounts(counts, table);
    if sums.Err? {
      return Err(sums.error);
    }
    var atoms := sums.value.atoms;
    assert atoms == |s|;
    r := Ok(Some(AverageRadii(sums.value.vdw / atoms as real, sums.value.cov / atoms as real)));
  }

  /** The averaged R radius lies between the smallest and the largest
      radius of the symbols found on R positions. */
  lemma RAverageBetween(s: seq<string>, table: seq<RadiiRow>, lo: real, hi: real)
    requires RAverageValue(s, table).Ok? && RAverageValue(s, table).value.Some?
    requires forall x :: x in s ==> VdwOf(table, x).Ok? && lo <= VdwOf(table, x).value <= hi
    ensures lo <= RAverageValue(s, table).value.value.vdw <= hi
  {
    var counts := ValueCounts(s);
    var radii := Radii(counts, table, false);
    ValueCountsTotal(s);
    forall i | 0 <= i < |radii|
      ensures lo <= radii[i] <= hi
    {
      CountedIn(s, Unique(s), i);
    }
    MeanBetween(counts, radii, lo, hi, Weighted(counts, radii), Total(counts));
  }

  /** Every counted symbol occurs among the values. */
  lemma {:induction false} CountedIn(s: seq<string>, ids: seq<string>, i: nat)
    requires forall x :: x in ids ==> x in s
    requires i < |ids|
    ensures Counted(s, ids)[i].symbol in s
    decreases |ids|
  {
    if i < |ids| - 1 {
      CountedIn(s, ids[..|ids| - 1], i);
    } else {
      assert ids[i] in ids;
    }
  }

  /** One averaged atom of the central group. */
  datatype AveragedAtom = AveragedAtom(atomLabel: string, symbol: string, pos: Vec3, vdwRadius: real, covRadius: real)

  /** The labels of the rows, in order. */
  function Labels(central: seq<AlignedRow>): (r: seq<string>)
    ensures |r| == |central|
    ensures forall i :: 0 <= i < |central| ==> r[i] == central[i].atomLabel
  {
    seq(|central|, i requires 0 <= i < |central| => central[i].atomLabel)
  }

  /** The rows carrying `atomLabel`, in order. */
  function LabelRows(central: seq<AlignedRow>, atomLabel: string): (r: seq<AlignedRow>)
    ensures forall row :: row in r <==> row in central && row.atomLabel == atomLabel
    decreases |central|
  {
    if central == [] then []
    else
      var n := |central| - 1;
      assert central == central[..n] + [central[n]];
      LabelRows(central[..n], atomLabel) + (if central[n].atomLabel == atomLabel then [central[n]] else [])
  }

  /** A label that occurs has rows. */
  lemma LabelRowsPresent(central: seq<AlignedRow>, atomLabel: string)
    requires atomLabel in Labels(central)
    ensures LabelRows(central, atomLabel) != []
  {
    var i :| 0 <= i < |central| && Labels(central)[i] == atomLabel;
    assert central[i] in LabelRows(central, atomLabel);
  }

  /** The aggregation of one label: its first symbol and mean position;
      the radii are set afterwards. */
  function Group(central: seq<AlignedRow>, atomLabel: string): (r: AveragedAtom)
    requires atomLabel in Labels(central)
    ensures r.atomLabel == atomLabel
  {
    LabelRowsPresent(central, atomLabel);
    var rows := LabelRows(central, atomLabel);
    AveragedAtom(atomLabel, rows[0].symbol, Mean(Positions(rows)), 0.0, 0.0)
  }

  /** `groupby('label', sort=False).agg(...)`: one aggregated row per label of `labels`. */
  function Grouped(central: seq<AlignedRow>, labels: seq<string>): (r: seq<AveragedAtom>)
    requires forall k :: 0 <= k < |labels| ==> labels[k] in Labels(central)
    ensures |r| == |labels|
    ensures forall k :: 0 <= k < |r| ==> r[k].atomLabel == labels[k]
    decreases |labels|
  {
    if labels == [] then []
    else
      var n := |labels| - 1;
      Grouped(central, labels[..n]) + [Group(central, labels[n])]
  }

  /** Entry `k` of the grouping aggregates the rows of `labels[k]`: its label,
      the symbol of its first row, the mean of its positions. */
  lemma {:induction false} GroupedAt(central: seq<AlignedRow>, labels: seq<string>, k: nat)
    requires forall j :: 0 <= j < |labels| ==> labels[j] in Labels(central)
    requires k < |labels|
    ensures LabelRows(central, labels[k]) != []
    ensures Grouped(central, labels)[k] ==
              AveragedAtom(labels[k], LabelRows(central, labels[k])[0].symbol,
                           Mean(Positions(LabelRows(central, labels[k]))), 0.0, 0.0)
    decreases |labels|
  {
    LabelRowsPresent(central, labels[k]);
    if k < |labels| - 1 {
      GroupedAt(central, labels[..|labels| - 1], k);
    }
  }

  /** The error of reading `avg_vdw` when no row is on an R position. */
  const NoRAverage := "local variable 'avg_vdw' referenced before assignment"

  /** code/src/scripts/helpers/geometry_helpers.py:255-261 for one row: the R average for a label containing "R",
      otherwise the radii of the row's symbol. */
  function RadiiFor(a: AveragedAtom, table: seq<RadiiRow>, avg: Option<AverageRadii>): (r: Result<AveragedAtom>)
    ensures r.Ok? ==> r.value.atomLabel == a.atomLabel && r.value.symbol == a.symbol && r.value.pos == a.pos
    ensures IsR(a.atomLabel) ==> (r.Ok? <==> avg.Some?)
    ensures IsR(a.atomLabel) && r.Ok? ==> r.value.vdwRadius == avg.value.vdw && r.value.covRadius == avg.value.cov
    ensures !IsR(a.atomLabel) ==> (r.Ok? <==> VdwOf(table, a.symbol).Ok?)
    ensures !IsR(a.atomLabel) && r.Ok? ==>
              VdwOf(table, a.symbol) == Ok(r.value.vdwRadius) && CovOf(table, a.symbol) == Ok(r.value.covRadius)
    ensures r.Err? ==> r.error == if IsR(a.atomLabel) then NoRAverage else VdwMissing
  {
    if IsR(a.atomLabel) then
      if avg.None? then Err(NoRAverage)
      else Ok(a.(vdwRadius := avg.value.vdw, covRadius := avg.value.cov))
    else
      var v := VdwOf(table, a.symbol);
      if v.Err? then Err(v.error)
      else Ok(a.(vdwRadius := v.value, covRadius := CovOf(table, a.symbol).value))
  }

  /** Every row gets its radii. */
  predicate AllAssignable(rows: seq<AveragedAtom>, table: seq<RadiiRow>, avg: Option<AverageRadii>)
  {
    forall i :: 0 <= i < |rows| ==> RadiiFor(rows[i], table, avg).Ok?
  }

  /** `result` is `rows` with the radii of each row set. */
  predicate Assigned(rows: seq<AveragedAtom>, table: seq<RadiiRow>, avg: Option<AverageRadii>, result: seq<AveragedAtom>)
  {
    |result| == |rows| && forall i :: 0 <= i < |rows| ==> RadiiFor(rows[i], table, avg) == Ok(result[i])
  }

  /** `e` is the failure of some row. */
  ghost predicate FailsWith(rows: seq<AveragedAtom>, table: seq<RadiiRow>, avg: Option<AverageRadii>, e: string)
  {
    exists i :: 0 <= i < |rows| && RadiiFor(rows[i], table, avg) == Err(e)
  }

  /** code/src/scripts/helpers/geometry_helpers.py:252-261: the radii set row by row; the first row whose radius
      cannot be found stops the run. */
  method AssignRadii(frame: array<AveragedAtom>, table: seq<RadiiRow>, avg: Option<AverageRadii>) returns (error: Option<string>)
    modifies frame
    ensures error.None? <==> AllAssignable(old(frame[..]), table, avg)
    ensures error.None? ==> Assigned(old(frame[..]), table, avg, frame[..])
    ensures error.Some? ==> FailsWith(old(frame[..]), table, avg, error.value)
  {
    ghost var rows := frame[..];
    for idx := 0 to frame.Length
      invariant forall k :: 0 <= k < idx ==> RadiiFor(rows[k], table, avg) == Ok(frame[k])
      invariant forall k :: idx <= k < frame.Length ==> frame[k] == rows[k]
    {
      var next := RadiiFor(frame[idx], table, avg);
      if next.Err? {
        assert RadiiFor(rows[idx], table, avg) == Err(next.error);
        return Some(next.error);
      }
      frame[idx] := next.value;
    }
    return None;
  }

  /** code/src/scripts/helpers/geometry_helpers.py:250-261: the grouped rows copied into a frame whose radii are
      then set row by row. */
  method RadiiFrame(groups: seq<AveragedAtom>, table: seq<RadiiRow>, avg: Option<AverageRadii>) returns (r: Result<seq<AveragedAtom>>)
    ensures r.Ok? <==> AllAssignable(groups, table, avg)
    ensures r.Ok? ==> Assigned(groups, table, avg, r.value)
    ensures r.Err? ==> FailsWith(groups, table, avg, r.error)
  {
    var frame := new AveragedAtom[|groups|](i requires 0 <= i < |groups| => groups[i]);
    assert frame[..] == groups;
    var error := AssignRadii(frame, table, avg);
    if error.Some? {
      return Err(error.value);
    }
    r := Ok(frame[..]);
  }

  /** The R average can be read and every grouped central row's radii can
      be assigned with it. */
  predicate AverageAssignable(df: seq<AlignedRow>, table: seq<RadiiRow>)
  {
    var central := CentralRows(df);
    var avg := RAverageValue(RSymbols(central), table);
    UniqueLabels(central);
    avg.Ok? && AllAssignable(Grouped(central, Unique(Labels(central))), table, avg.value)
  }

  /** `average_fragment` with no `kmeans_label` column: the central rows
      grouped by label in order of first appearance, each with the mean of
      its positions and its radii.  It succeeds exactly when the R average
      can be read and every grouped row's radii can be assigned. */
  method AverageFragment(df: seq<AlignedRow>, table: seq<RadiiRow>) returns (r: Result<seq<AveragedAtom>>)
    ensures RAverageValue(RSymbols(CentralRows(df)), table).Err? ==> r.Err?
    ensures r.Ok? <==> AverageAssignable(df, table)
    ensures r.Ok? ==>
              RAverageValue(RSymbols(CentralRows(df)), table).Ok? &&
              Assigned(Grouped(CentralRows(df), Unique(Labels(CentralRows(df)))), table,
                       RAverageValue(RSymbols(CentralRows(df)), table).value, r.value)
    ensures r.Err? ==> r.error != NoRAverage
  {
    var central := CentralRows(df);
    var avg := RAverage(RSymbols(central), table);
    if avg.Err? {
      return Err(avg.error);
    }
    var labels := Unique(Labels(central));
    UniqueLabels(central);
    var groups := Grouped(central, labels);
    r := RadiiFrame(groups, table, avg.value);
    if r.Err? {
      RAverageFound(central, labels, table, avg.value);
    }
  }

  /** Every label of the grouping is a label of some row. */
  lemma UniqueLabels(central: seq<AlignedRow>)
    ensures forall k :: 0 <= k < |Unique(Labels(central))| ==> Unique(Labels(central))[k] in Labels(central)
  {
    var labels := Unique(Labels(central));
    forall k | 0 <= k < |labels|
      ensures labels[k] in Labels(central)
    {
      assert labels[k] in labels;
    }
  }

  /** Every label holding an "R" has a row on an R position, so the
      average exists whenever it is needed. */
  lemma RAverageFound(central: seq<AlignedRow>, labels: seq<string>, table: seq<RadiiRow>, avg: Option<AverageRadii>)
    requires forall k :: 0 <= k < |labels| ==> labels[k] in Labels(central)
    requires RSymbols(central) != [] ==> avg.Some?
    ensures !FailsWith(Grouped(central, labels), table, avg, NoRAverage)
  {
    forall i | 0 <= i < |labels|
      ensures RadiiFor(Grouped(central, labels)[i], table, avg) != Err(NoRAverage)
    {
      RAverageFoundAt(central, labels, table, avg, i);
    }
  }

  /** The same for the label at position `i`. */
  lemma RAverageFoundAt(central: seq<AlignedRow>, labels: seq<string>, table: seq<RadiiRow>, avg: Option<AverageRadii>, i: nat)
    requires forall k :: 0 <= k < |labels| ==> labels[k] in Labels(central)
    requires RSymbols(central) != [] ==> avg.Some?
    requires i < |labels|
    ensures RadiiFor(Grouped(central, labels)[i], table, avg) != Err(NoRAverage)
  {
    GroupedAt(central, labels, i);
    if IsR(labels[i]) {
      var j :| 0 <= j < |central| && Labels(central)[j] == labels[i];
      RSymbolsPresent(central, j);
    }
  }
}
