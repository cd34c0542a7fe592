/** The contact points of code/src/scripts/helpers/geometry_helpers.py:
    which contact atoms (or centroids) are counted, and the distance from
    each to the nearest atom of the averaged central group. */
module ContactGeometry {
  import opened Wrappers
  import opened Vectors
  import opened Reals
  import opened Lists
  import opened RadiiTable
  import opened DensityVolume

  /** One row of the aligned fragments: atoms of the central group carry
      their label, contact atoms the label "-". */
  datatype AlignedRow = AlignedRow(fragmentId: int, atomLabel: string, symbol: string, pos: Vec3)

  /** A point of the contact group that is counted. */
  datatype ContactPoint = ContactPoint(fragmentId: int, pos: Vec3)

  /** A contact point with the two columns `distances_closest_vdw_central`
      adds. */
  datatype Measured = Measured(point: ContactPoint, distance: real, vdwClosestAtom: real)

  /** A row of the coordinate frame: a measured point and `longest_vdw`. */
  datatype CoordinateRow = CoordinateRow(measured: Measured, longestVdw: real)

  /** The label of contact atoms. */
  const ContactLabel := "-"

  /** `df[df.label == "-"]`. */
  function ContactRows(df: seq<AlignedRow>): (r: seq<AlignedRow>)
    ensures forall row :: row in r <==> row in df && row.atomLabel == ContactLabel
    decreases |df|
  {
    if df == [] then []
    else
      var n := |df| - 1;
      assert df == df[..n] + [df[n]];
      ContactRows(df[..n]) + (if df[n].atomLabel == ContactLabel then [df[n]] else [])
  }

  /** The fragment ids of the rows, in order. */
  function Ids(df: seq<AlignedRow>): (r: seq<int>)
    ensures |r| == |df|
    ensures forall i :: 0 <= i < |df| ==> r[i] == df[i].fragmentId
  {
    seq(|df|, i requires 0 <= i < |df| => df[i].fragmentId)
  }

  /** The rows of fragment `id`, in order. */
  function FragmentRows(df: seq<AlignedRow>, id: int): (r: seq<AlignedRow>)
    ensures forall row :: row in r <==> row in df && row.fragmentId == id
    decreases |df|
  {
    if df == [] then []
    else
      var n := |df| - 1;
      assert df == df[..n] + [df[n]];
      FragmentRows(df[..n], id) + (if df[n].fragmentId == id then [df[n]] else [])
  }

  /** A fragment id that occurs has rows. */
  lemma FragmentRowsPresent(df: seq<AlignedRow>, id: int)
    requires id in Ids(df)
    ensures FragmentRows(df, id) != []
  {
    var i :| 0 <= i < |df| && Ids(df)[i] == id;
    assert df[i] in FragmentRows(df, id);
  }

  /** The rows of `symbol`, in order. */
  function WithSymbol(df: seq<AlignedRow>, symbol: string): (r: seq<AlignedRow>)
    ensures forall row :: row in r <==> row in df && row.symbol == symbol
    decreases |df|
  {
    if df == [] then []
    else
      var n := |df| - 1;
      assert df == df[..n] + [df[n]];
      WithSymbol(df[..n], symbol) + (if df[n].symbol == symbol then [df[n]] else [])
  }

  /** The positions of the rows. */
  function Positions(df: seq<AlignedRow>): (r: seq<Vec3>)
    ensures |r| == |df|
  {
    seq(|df|, i requires 0 <= i < |df| => df[i].pos)
  }

  /** The rows as counted points. */
  function Points(df: seq<AlignedRow>): (r: seq<ContactPoint>)
    ensures |r| == |df|
    ensures forall i :: 0 <= i < |df| ==> r[i] == ContactPoint(df[i].fragmentId, df[i].pos)
  {
    seq(|df|, i requires 0 <= i < |df| => ContactPoint(df[i].fragmentId, df[i].pos))
  }

  /** One point per fragment id of `ids`, in that order, at the mean
      position of that fragment's rows. */
  function Centroids(df: seq<AlignedRow>, ids: seq<int>): (r: seq<ContactPoint>)
    requires forall k :: 0 <= k < |ids| ==> ids[k] in Ids(df)
    ensures |r| == |ids|
    ensures forall k :: 0 <= k < |r| ==> r[k].fragmentId == ids[k]
    decreases |ids|
  {
    if ids == [] then []
    else
      var n := |ids| - 1;
      FragmentRowsPresent(df, ids[n]);
      Centroids(df, ids[..n]) + [ContactPoint(ids[n], Mean(Positions(FragmentRows(df, ids[n]))))]
  }

  /** Point `k` of the centroids belongs to fragment `ids[k]` and lies at
      the mean position of that fragment's rows. */
  lemma {:induction false} CentroidsAt(df: seq<AlignedRow>, ids: seq<int>, k: nat)
    requires forall j :: 0 <= j < |ids| ==> ids[j] in Ids(df)
    requires k < |ids|
    ensures FragmentRows(df, ids[k]) != []
    ensures Centroids(df, ids)[k] == ContactPoint(ids[k], Mean(Positions(FragmentRows(df, ids[k]))))
    decreases |ids|
  {
    FragmentRowsPresent(df, ids[k]);
    if k < |ids| - 1 {
      CentroidsAt(df, ids[..|ids| - 1], k);
    }
  }

  /** The start value of `min_dist` in `p_dist_calc`. */
  const Sentinel := 1000000000.0

  /** `np.sqrt(np.sum((avg_fragment_point - contact_point)**2))`. */
  function Dist(c: Vec3, atom: ModelAtom, sqrt: real -> real): real
  {
    sqrt(SqDist(atom.pos, c))
  }

  /** `d` and `vdw` are what the search over the model leaves for point
      `c`: `d` is below the start value, no atom is nearer, and `vdw` is the
      radius of the first atom at distance `d`. */
  predicate IsClosest(c: Vec3, model: seq<ModelAtom>, sqrt: real -> real, d: real, vdw: real)
  {
    d < Sentinel &&
    (forall j :: 0 <= j < |model| ==> d <= Dist(c, model[j], sqrt)) &&
    exists i :: 0 <= i < |model| && Dist(c, model[i], sqrt) == d && model[i].vdwRadius == vdw &&
                (forall j :: 0 <= j < i ==> d < Dist(c, model[j], sqrt))
  }

  /** The closest distance and its radius are determined by the point and
      the model. */
  lemma ClosestUnique(c: Vec3, model: seq<ModelAtom>, sqrt: real -> real, d1: real, v1: real, d2: real, v2: real)
    requires IsClosest(c, model, sqrt, d1, v1) && IsClosest(c, model, sqrt, d2, v2)
    ensures d1 == d2 && v1 == v2
  {
    var i1 :| 0 <= i1 < |model| && Dist(c, model[i1], sqrt) == d1 && model[i1].vdwRadius == v1 &&
              (forall j :: 0 <= j < i1 ==> d1 < Dist(c, model[j], sqrt));
    var i2 :| 0 <= i2 < |model| && Dist(c, model[i2], sqrt) == d2 && model[i2].vdwRadius == v2 &&
              (forall j :: 0 <= j < i2 ==> d2 < Dist(c, model[j], sqrt));
    assert d1 <= d2 && d2 <= d1;
  }

  /** Some atom lies nearer than the start value. */
  predicate Reachable(c: Vec3, model: seq<ModelAtom>, sqrt: real -> real)
  {
    exists j :: 0 <= j < |model| && Dist(c, model[j], sqrt) < Sentinel
  }

  /** The inner loop of `p_dist_calc`: the smallest distance, replaced
      only by a strictly smaller one, and the radius of the atom that set
      it; no radius when no atom is nearer than the start value. */
  method ClosestAtom(c: Vec3, model: seq<ModelAtom>, sqrt: real -> real) returns (minDist: real, minVdw: Option<real>)
    ensures minVdw.Some? <==> Reachable(c, model, sqrt)
    ensures minVdw.Some? ==> IsClosest(c, model, sqrt, minDist, minVdw.value)
    ensures minVdw.None? ==> minDist == Sentinel
  {
    minDist := Sentinel;
    minVdw := None;
    ghost var at := 0;
    for i := 0 to |model|
      invariant minDist <= Sentinel
      invariant forall j :: 0 <= j < i ==> minDist <= Dist(c, model[j], sqrt)
      invariant minVdw.None? ==> minDist == Sentinel
      invariant minVdw.None? ==> forall j :: 0 <= j < i ==> Sentinel <= Dist(c, model[j], sqrt)
      invariant minVdw.Some? ==> at < i && Dist(c, model[at], sqrt) == minDist && model[at].vdwRadius == minVdw.value &&
                                 minDist < Sentinel && forall j :: 0 <= j < at ==> minDist < Dist(c, model[j], sqrt)
    {
      var d := sqrt(SqDist(model[i].pos, c));
      if d < minDist {
        minDist := d;
        minVdw := Some(model[i].vdwRadius);
        at := i;
      }
    }
  }

  /** `p_dist_calc`: for each contact point, its closest distance and the
      radius of its closest atom.  A point with no atom nearer than the
      start value leaves `None` for its radius, which the float array
      cannot hold; the run stops there. */
  method PDistCalc(closestVdw: array<real>, closestDistances: array<real>, contacts: seq<Vec3>,
                   model: seq<ModelAtom>, sqrt: real -> real) returns (ok: bool)
    requires closestVdw.Length == |contacts| && closestDistances.Length == |contacts|
    requires closestVdw != closestDistances
    modifies closestVdw, closestDistances
    ensures ok <==> forall idx :: 0 <= idx < |contacts| ==> Reachable(contacts[idx], model, sqrt)
    ensures ok ==> forall idx :: 0 <= idx < |contacts| ==>
                     IsClosest(contacts[idx], model, sqrt, closestDistances[idx], closestVdw[idx])
  {
    for idx := 0 to |contacts|
      invariant forall k :: 0 <= k < idx ==> Reachable(contacts[k], model, sqrt)
      invariant forall k :: 0 <= k < idx ==> IsClosest(contacts[k], model, sqrt, closestDistances[k], closestVdw[k])
    {
      var minDist, minVdw := ClosestAtom(contacts[idx], model, sqrt);
      if minVdw.None? {
        return false;
      }
      closestDistances[idx] := minDist;
      closestVdw[idx] := minVdw.value;
    }
    return true;
  }

  /** The positions of the points. */
  function PointPositions(points: seq<ContactPoint>): (r: seq<Vec3>)
    ensures |r| == |points|
    ensures forall i :: 0 <= i < |points| ==> r[i] == points[i].pos
  {
    seq(|points|, i requires 0 <= i < |points| => points[i].pos)
  }

  /** `distances_closest_vdw_central`: each point, unchanged, with its
      closest distance and the radius of the closest atom. */
  method DistancesClosestVdwCentral(points: seq<ContactPoint>, model: seq<ModelAtom>, sqrt: real -> real)
    returns (r: Result<seq<Measured>>)
    ensures r.Ok? <==> forall i :: 0 <= i < |points| ==> Reachable(points[i].pos, model, sqrt)
    ensures r.Ok? ==> |r.value| == |points|
    ensures r.Ok? ==> forall i :: 0 <= i < |points| ==>
                        (r.value[i].point == points[i] &&
                         IsClosest(points[i].pos, model, sqrt, r.value[i].distance, r.value[i].vdwClosestAtom))
  {
    var distances := new real[|points|](_ => 0.0);
    var vdw := new real[|points|](_ => 0.0);
    var ok := PDistCalc(vdw, distances, PointPositions(points), model, sqrt);
    if !ok {
      return Err(NoClosestAtom);
    }
    r := Ok(seq(|points|, i requires 0 <= i < |points| reads distances, vdw =>
                Measured(points[i], distances[i], vdw[i])));
  }

  /** The failure when a point has no atom nearer than the start value. */
  const NoClosestAtom := "None cannot be stored as a closest vdw radius"

  /** `groupby('fragment_id').distance.idxmin()` within one group: the
      position of the smallest distance, the first one on ties. */
  function FirstMinimum(ms: seq<Measured>): (r: nat)
    requires ms != []
    ensures r < |ms|
    ensures forall j :: 0 <= j < |ms| ==> ms[r].distance <= ms[j].distance
    ensures forall j :: 0 <= j < r ==> ms[r].distance < ms[j].distance
    decreases |ms|
  {
    if |ms| == 1 then 0
    else
      var best := FirstMinimum(ms[..|ms| - 1]);
      if ms[|ms| - 1].distance < ms[best].distance then |ms| - 1 else best
  }

  /** The fragment ids of measured points, in order. */
  function MeasuredIds(ms: seq<Measured>): (r: seq<int>)
    ensures |r| == |ms|
    ensures forall i :: 0 <= i < |ms| ==> r[i] == ms[i].point.fragmentId
  {
    seq(|ms|, i requires 0 <= i < |ms| => ms[i].point.fragmentId)
  }

  /** The measured points of fragment `id`, in order. */
  function FragmentMeasured(ms: seq<Measured>, id: int): (r: seq<Measured>)
    ensures forall m :: m in r <==> m in ms && m.point.fragmentId == id
    decreases |ms|
  {
    if ms == [] then []
    else
      var n := |ms| - 1;
      assert ms == ms[..n] + [ms[n]];
      FragmentMeasured(ms[..n], id) + (if ms[n].point.fragmentId == id then [ms[n]] else [])
  }

  /** A fragment id that occurs has measured points. */
  lemma FragmentMeasuredPresent(ms: seq<Measured>, id: int)
    requires id in MeasuredIds(ms)
    ensures FragmentMeasured(ms, id) != []
  {
    var i :| 0 <= i < |ms| && MeasuredIds(ms)[i] == id;
    assert ms[i] in FragmentMeasured(ms, id);
  }

  /** For each id, the point of that fragment that `FirstMinimum` picks. */
  function Closest(ms: seq<Measured>, ids: seq<int>): (r: seq<Measured>)
    requires forall k :: 0 <= k < |ids| ==> ids[k] in MeasuredIds(ms)
    ensures |r| == |ids|
    ensures forall k :: 0 <= k < |r| ==> r[k].point.fragmentId == ids[k]
    decreases |ids|
  {
    if ids == [] then []
    else
      var n := |ids| - 1;
      FragmentMeasuredPresent(ms, ids[n]);
      var group := FragmentMeasured(ms, ids[n]);
      assert group[FirstMinimum(group)] in group;
      Closest(ms, ids[..n]) + [group[FirstMinimum(group)]]
  }

  /** The pick for `ids[k]` is what `FirstMinimum` chooses among the points
      of that fragment. */
  lemma {:induction false} ClosestPick(ms: seq<Measured>, ids: seq<int>, k: nat)
    requires forall j :: 0 <= j < |ids| ==> ids[j] in MeasuredIds(ms)
    requires k < |ids|
    ensures FragmentMeasured(ms, ids[k]) != []
    ensures Closest(ms, ids)[k] == FragmentMeasured(ms, ids[k])[FirstMinimum(FragmentMeasured(ms, ids[k]))]
    decreases |ids|
  {
    FragmentMeasuredPresent(ms, ids[k]);
    var n := |ids| - 1;
    if k < n {
      ClosestPick(ms, ids[..n], k);
      assert Closest(ms, ids)[k] == Closest(ms, ids[..n])[k];
    }
  }

  /** The pick for `ids[k]` is a point of that fragment, and no other point
      of the fragment is nearer. */
  lemma ClosestAt(ms: seq<Measured>, ids: seq<int>, k: nat)
    requires forall j :: 0 <= j < |ids| ==> ids[j] in MeasuredIds(ms)
    requires k < |ids|
    ensures Closest(ms, ids)[k] in ms && Closest(ms, ids)[k].point.fragmentId == ids[k]
    ensures forall m :: m in ms && m.point.fragmentId == ids[k] ==> Closest(ms, ids)[k].distance <= m.distance
  {
    ClosestPick(ms, ids, k);
    var group := FragmentMeasured(ms, ids[k]);
    var best := FirstMinimum(group);
    assert group[best] in group;
    forall m | m in ms && m.point.fragmentId == ids[k]
      ensures group[best].distance <= m.distance
    {
      assert m in group;
      var j :| 0 <= j < |group| && group[j] == m;
    }
  }

  /** `coordinate_df.loc[coordinate_df.groupby('fragment_id').distance.idxmin()]`:
      one point per fragment, the nearest of its candidates, with the
      fragments in ascending id order as `groupby` sorts them. */
  function ClosestPerFragment(ms: seq<Measured>): (r: seq<Measured>)
    ensures MeasuredIds(r) == SortedUnique(MeasuredIds(ms))
  {
    var ids := SortedUnique(MeasuredIds(ms));
    var r := Closest(ms, ids);
    assert MeasuredIds(r) == ids;
    r
  }

  /** Each fragment with a candidate keeps exactly one point, its nearest,
      and the fragments appear once each, in ascending id order. */
  lemma ClosestPerFragmentSpec(ms: seq<Measured>, k: nat)
    requires k < |ClosestPerFragment(ms)|
    ensures ClosestPerFragment(ms)[k] in ms
    ensures forall m :: m in ms && m.point.fragmentId == ClosestPerFragment(ms)[k].point.fragmentId ==>
                          ClosestPerFragment(ms)[k].distance <= m.distance
    ensures Distinct(MeasuredIds(ClosestPerFragment(ms)))
    ensures Increasing(MeasuredIds(ClosestPerFragment(ms)))
    ensures forall id :: id in MeasuredIds(ms) <==> id in MeasuredIds(ClosestPerFragment(ms))
  {
    var ids := SortedUnique(MeasuredIds(ms));
    assert forall j :: 0 <= j < |ids| ==> ids[j] in MeasuredIds(ms);
    ClosestAt(ms, ids, k);
  }

  /** How the contact points are chosen. */
  datatype Selection = CentroidPoints | UniqueAtom | PickClosest

  /** The word that asks for ring centroids. */
  const CentroidWord := "centroid"

  /** The contact rows of the first fragment id to appear. */
  function FirstFragment(contact: seq<AlignedRow>): (r: seq<AlignedRow>)
    requires contact != []
    ensures forall row :: row in r <==> row in contact && row.fragmentId == contact[0].fragmentId
  {
    UniqueFirst(Ids(contact));
    FragmentRows(contact, Unique(Ids(contact))[0])
  }

  /** Centroids on request; otherwise the first fragment alone decides:
      exactly one atom of the symbol there means every such atom is
      counted, more or none means the nearest per fragment. */
  function ChooseSelection(contact: seq<AlignedRow>, toCountContact: string): (r: Selection)
    requires contact != []
    ensures r == CentroidPoints <==> toCountContact == CentroidWord
    ensures r == UniqueAtom <==>
              toCountContact != CentroidWord && |WithSymbol(FirstFragment(contact), toCountContact)| == 1
  {
    if toCountContact == CentroidWord then CentroidPoints
    else if |WithSymbol(FirstFragment(contact), toCountContact)| == 1 then UniqueAtom
    else PickClosest
  }

  /** Filtering by fragment id distributes over concatenation. */
  lemma {:induction false} FragmentRowsAppend(a: seq<AlignedRow>, b: seq<AlignedRow>, id: int)
    ensures FragmentRows(a + b, id) == FragmentRows(a, id) + FragmentRows(b, id)
    decreases |b|
  {
    if b == [] {
      assert a + b == a;
    } else {
      var n := |b| - 1;
      var t := if b[n].fragmentId == id then [b[n]] else [];
      assert (a + b)[..|a| + n] == a + b[..n];
      assert (a + b)[|a| + n] == b[n];
      assert FragmentRows(a + b, id) == FragmentRows(a + b[..n], id) + t;
      FragmentRowsAppend(a, b[..n], id);
      assert FragmentRows(b, id) == FragmentRows(b[..n], id) + t;
    }
  }

  /** Rows of other fragments contribute nothing to fragment `id`. */
  lemma FragmentRowsNone(b: seq<AlignedRow>, id: int)
    requires forall k :: 0 <= k < |b| ==> b[k].fragmentId != id
    ensures FragmentRows(b, id) == []
  {
  }

  /** Appending rows of other fragments does not change how the points are
      chosen: the first fragment alone decides. */
  lemma SelectionFromFirst(a: seq<AlignedRow>, rest: seq<AlignedRow>, toCountContact: string)
    requires a != []
    requires forall k :: 0 <= k < |rest| ==> rest[k].fragmentId != a[0].fragmentId
    ensures ChooseSelection(a + rest, toCountContact) == ChooseSelection(a, toCountContact)
  {
    var id := a[0].fragmentId;
    UniqueFirst(Ids(a + rest));
    UniqueFirst(Ids(a));
    assert (a + rest)[0] == a[0];
    FragmentRowsAppend(a, rest, id);
    FragmentRowsNone(rest, id);
    assert FragmentRows(a + rest, id) == FragmentRows(a, id);
  }

  /** The points to measure: the centroid of every fragment, in ascending
      fragment id order as `groupby(...).mean()` gives them, or the contact
      atoms of the requested symbol in frame order. */
  function SelectPoints(contact: seq<AlignedRow>, selection: Selection, toCountContact: string): (r: seq<ContactPoint>)
    ensures selection != CentroidPoints ==> r == Points(WithSymbol(contact, toCountContact))
    ensures selection == CentroidPoints ==>
              |r| == |SortedUnique(Ids(contact))| &&
              forall k :: 0 <= k < |r| ==> r[k].fragmentId == SortedUnique(Ids(contact))[k]
  {
    if selection == CentroidPoints then
      var ids := SortedUnique(Ids(contact));
      Centroids(contact, ids)
    else Points(WithSymbol(contact, toCountContact))
  }

  /** With centroids, the points come one per fragment of the contact rows,
      each fragment once, in ascending id order, each at the mean position
      of its fragment's rows. */
  lemma SelectPointsCentroids(contact: seq<AlignedRow>, toCountContact: string, k: nat)
    requires k < |SelectPoints(contact, CentroidPoints, toCountContact)|
    ensures forall id :: id in Ids(contact) <==>
              exists j :: 0 <= j < |SelectPoints(contact, CentroidPoints, toCountContact)| &&
                          SelectPoints(contact, CentroidPoints, toCountContact)[j].fragmentId == id
    ensures forall i, j :: 0 <= i < j < |SelectPoints(contact, CentroidPoints, toCountContact)| ==>
              SelectPoints(contact, CentroidPoints, toCountContact)[i].fragmentId <
              SelectPoints(contact, CentroidPoints, toCountContact)[j].fragmentId
    ensures var p := SelectPoints(contact, CentroidPoints, toCountContact)[k];
            FragmentRows(contact, p.fragmentId) != [] &&
            p.pos == Mean(Positions(FragmentRows(contact, p.fragmentId)))
  {
    var ids := SortedUnique(Ids(contact));
    var r := SelectPoints(contact, CentroidPoints, toCountContact);
    assert forall j :: 0 <= j < |ids| ==> ids[j] in Ids(contact);
    CentroidsAt(contact, ids, k);
    forall id | id in Ids(contact)
      ensures exists j :: 0 <= j < |r| && r[j].fragmentId == id
    {
      var j :| 0 <= j < |ids| && ids[j] == id;
      assert r[j].fragmentId == id;
    }
  }

  /** The radius for the `longest_vdw` column as the call in
      `make_coordinate_df` is written: carbon for centroids; otherwise
      `get_vdw_distance_contact` is called with two arguments where it
      takes one, which stops the run. */
  function LongestVdwAsWritten(table: seq<RadiiRow>, toCountContact: string): (r: Result<real>)
    ensures toCountContact != CentroidWord ==> r == Err(WrongArguments)
    ensures toCountContact == CentroidWord ==> r == VdwOf(table, "C")
  {
    if toCountContact == CentroidWord then VdwOf(table, "C") else Err(WrongArguments)
  }

  /** The failure of that call. */
  const WrongArguments := "get_vdw_distance_contact() takes 2 positional arguments but 3 were given"

  /** The evidently intended value: `get_vdw_distance_contact(to_count_contact)`,
      carbon's radius for centroids, otherwise that of the counted symbol. */
  function LongestVdw(table: seq<RadiiRow>, toCountContact: string): (r: Result<real>)
    ensures r == VdwOf(table, if toCountContact == CentroidWord then "C" else toCountContact)
    ensures r.Ok? ==> exists row :: row in table && row.symbol == (if toCountContact == CentroidWord then "C" else toCountContact)
                                     && row.vdwRadius == r.value
  {
    if toCountContact == CentroidWord then VdwOf(table, "C") else VdwOf(table, toCountContact)
  }

  /** With one oxygen row in the table and oxygen counted, the call as
      written fails while the intended lookup finds 1.52. */
  lemma LongestVdwMismatch()
    ensures LongestVdwAsWritten([RadiiRow("O", 1.52, 0.66)], "O").Err?
    ensures LongestVdw([RadiiRow("O", 1.52, 0.66)], "O") == Ok(1.52)
  {
    LookupUnique([RadiiRow("O", 1.52, 0.66)], 0);
  }

  /** The two lookups agree exactly when centroids are counted. */
  lemma LongestVdwAgrees(table: seq<RadiiRow>, toCountContact: string)
    requires toCountContact == CentroidWord
    ensures LongestVdwAsWritten(table, toCountContact) == LongestVdw(table, toCountContact)
  {
  }

  /** Measured points, each with the same `longest_vdw`. */
  function WithLongest(ms: seq<Measured>, longest: real): (r: seq<CoordinateRow>)
    ensures |r| == |ms|
    ensures forall i :: 0 <= i < |ms| ==> r[i].measured == ms[i] && r[i].longestVdw == longest
  {
    seq(|ms|, i requires 0 <= i < |ms| => CoordinateRow(ms[i], longest))
  }

  /** `ms` is what `distances_closest_vdw_central` gives for `points`. */
  predicate MeasuredAs(points: seq<ContactPoint>, model: seq<ModelAtom>, sqrt: real -> real, ms: seq<Measured>)
  {
    |ms| == |points| &&
    forall i :: 0 <= i < |points| ==>
      ms[i].point == points[i] && IsClosest(points[i].pos, model, sqrt, ms[i].distance, ms[i].vdwClosestAtom)
  }

  /** Only one measurement fits the points. */
  lemma MeasuredUnique(points: seq<ContactPoint>, model: seq<ModelAtom>, sqrt: real -> real, a: seq<Measured>, b: seq<Measured>)
    requires MeasuredAs(points, model, sqrt, a) && MeasuredAs(points, model, sqrt, b)
    ensures a == b
  {
    forall i | 0 <= i < |points|
      ensures a[i] == b[i]
    {
      ClosestUnique(points[i].pos, model, sqrt, a[i].distance, a[i].vdwClosestAtom, b[i].distance, b[i].vdwClosestAtom);
    }
  }

  /** The rows kept after measuring: all, or the nearest per fragment, one
      per fragment in ascending id order. */
  function Keep(selection: Selection, ms: seq<Measured>): (r: seq<Measured>)
    ensures selection != PickClosest ==> r == ms
    ensures selection == PickClosest ==> MeasuredIds(r) == SortedUnique(MeasuredIds(ms))
  {
    if selection == PickClosest then ClosestPerFragment(ms) else ms
  }

  /** The failure of `df.fragment_id.unique()[0]` on a frame without contact rows. */
  const NoContactRows := "index 0 is out of bounds for axis 0 with size 0"

  /** `make_coordinate_df` without its cache, with the `longest_vdw` lookup
      corrected: the contact rows, the points chosen by the first fragment,
      their closest atoms, the nearest per fragment when the symbol is not
      unique, and one radius for every row. */
  method MakeCoordinateDf(df: seq<AlignedRow>, toCountContact: string, model: seq<ModelAtom>,
                          table: seq<RadiiRow>, sqrt: real -> real) returns (r: Result<seq<CoordinateRow>>)
    ensures ContactRows(df) == [] ==> r == Err(NoContactRows)
    ensures ContactRows(df) != [] && LongestVdw(table, toCountContact).Err? ==> r.Err?
    ensures r.Ok? ==>
              ContactRows(df) != [] && LongestVdw(table, toCountContact).Ok? &&
              exists ms :: MeasuredAs(SelectPoints(ContactRows(df), ChooseSelection(ContactRows(df), toCountContact), toCountContact),
                                      model, sqrt, ms) &&
                           r.value == WithLongest(Keep(ChooseSelection(ContactRows(df), toCountContact), ms),
                                                  LongestVdw(table, toCountContact).value)
    ensures ContactRows(df) != [] && LongestVdw(table, toCountContact).Ok? ==>
              (r.Ok? <==> forall p :: p in SelectPoints(ContactRows(df), ChooseSelection(ContactRows(df), toCountContact), toCountContact)
                                      ==> Reachable(p.pos, model, sqrt))
  {
    var contact := ContactRows(df);
    if contact == [] {
      return Err(NoContactRows);
    }
    var selection := ChooseSelection(contact, toCountContact);
    var longest := LongestVdw(table, toCountContact);
    if longest.Err? {
      return Err(longest.error);
    }
    var points := SelectPoints(contact, selection, toCountContact);
    var measured := DistancesClosestVdwCentral(points, model, sqrt);
    if measured.Err? {
      return Err(measured.error);
    }
    assert MeasuredAs(points, model, sqrt, measured.value);
    r := Ok(WithLongest(Keep(selection, measured.value), longest.value));
  }
}
