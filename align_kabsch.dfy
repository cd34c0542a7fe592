/** The Kabsch alignment script: every fragment after the first is
    superimposed on the first fragment's central group by the (abstract)
    Kabsch fit, mirrored when its mean z is negative, and scored by the RMSE
    of its central group against the reference.

    The coordinate matrix is an array of rows; fragment `i` occupies the
    `noAtoms` rows from `Start(i, noAtoms)` on, of which the first
    `noAtomsCentral` are its central group. */
module AlignKabsch {
  import opened Wrappers
  import opened Reals
  import opened Vectors
  import opened Blocks
  import opened AlignmentHelpers

  /** The columns `prepare_data` adds to the coordinate table. */
  datatype Prepared = Prepared(fragments: nat, fragmentIds: seq<nat>, labels: seq<string>)

  /** `prepare_data`: the number of fragments is the row count divided by
      the atoms per fragment; row `r` gets fragment id `r div noAtoms` and
      the label `labelList[r mod |labelList|]`.  pandas refuses a new column
      whose length differs from the row count, which happens unless the rows
      are whole fragments. */
  function PrepareData(amountRows: nat, noAtoms: nat, labelList: seq<string>): (r: Result<Prepared>)
    ensures r.Ok? <==> 0 < noAtoms && (amountRows / noAtoms) * noAtoms == amountRows &&
                       (amountRows / noAtoms) * |labelList| == amountRows
    ensures r.Ok? ==>
      var p := r.value;
      p.fragments == amountRows / noAtoms &&
      |p.fragmentIds| == amountRows && |p.labels| == amountRows &&
      (forall i :: 0 <= i < amountRows ==> p.fragmentIds[i] == i / noAtoms) &&
      (forall i :: 0 <= i < amountRows ==> p.labels[i] == labelList[i % |labelList|])
  {
    if noAtoms == 0 then Err("division by zero")
    else
      var fragments := amountRows / noAtoms;
      var ids := RepeatEach(Range(fragments), noAtoms);
      var labels := Tile(labelList, fragments);
      if |ids| != amountRows || |labels| != amountRows then
        Err("length of values does not match length of index")
      else
        FragmentIds(fragments, noAtoms, ids);
        TiledLabels(labelList, fragments, labels);
        Ok(Prepared(fragments, ids, labels))
  }

  /** Row `i` of the tiled label list carries label `i mod |labelList|`. */
  lemma TiledLabels(labelList: seq<string>, fragments: nat, labels: seq<string>)
    requires labels == Tile(labelList, fragments)
    ensures forall i :: 0 <= i < |labels| ==> labels[i] == labelList[i % |labelList|]
  {
    forall i | 0 <= i < |labels|
      ensures labels[i] == labelList[i % |labelList|]
    {
      TileAt(labelList, fragments, i);
    }
  }

  /** Row `i` of `fragments` fragments of `noAtoms` rows belongs to fragment `i div noAtoms`. */
  lemma FragmentIds(fragments: nat, noAtoms: nat, ids: seq<nat>)
    requires 0 < noAtoms && ids == RepeatEach(Range(fragments), noAtoms)
    ensures forall i :: 0 <= i < |ids| ==> ids[i] == i / noAtoms
  {
    forall i | 0 <= i < |ids|
      ensures ids[i] == i / noAtoms
    {
      RepeatEachAt(Range(fragments), noAtoms, i);
      DivLess(i, noAtoms, fragments);
    }
  }

  /** `range(0, n)`. */
  function Range(n: nat): (r: seq<nat>)
    ensures |r| == n && forall i :: 0 <= i < n ==> r[i] == i
  {
    seq(n, i => i)
  }

  /** Fragment `i >= 1` after its loop iteration: the whole fragment moved
      by the Kabsch fit of its central group onto the reference, then
      mirrored if needed. */
  function KabschFragment(reference: seq<Vec3>, block: seq<Vec3>, fit: (seq<Vec3>, seq<Vec3>) -> Matrix3): (r: seq<Vec3>)
    requires 0 < |reference| <= |block|
    ensures |r| == |block|
  {
    MirrorIfNeeded(KabschAlign(reference, block[..|reference|], block, fit))
  }

  /** The `mirrored` entry of fragment `i >= 1`: the fitted fragment's mean
      z is negative. */
  predicate FitMirrored(reference: seq<Vec3>, block: seq<Vec3>, fit: (seq<Vec3>, seq<Vec3>) -> Matrix3)
    requires 0 < |reference| <= |block|
  {
    NegativeMeanZ(KabschAlign(reference, block[..|reference|], block, fit))
  }

  /** The `rmse` entry of fragment `i >= 1`: the RMSE of the central rows of
      the written fragment against the reference. */
  function FitRmse(reference: seq<Vec3>, block: seq<Vec3>, sqrt: real -> real,
                   fit: (seq<Vec3>, seq<Vec3>) -> Matrix3): real
    requires 0 < |reference| <= |block|
  {
    CalcRmse(reference, KabschFragment(reference, block, fit)[..|reference|], |reference|, sqrt)
  }

  /** A fragment after the treatment both alignment scripts give their
      first fragment (and `align_rotations` every fragment): center atom to
      the origin, the three canonicalising rotations, mirroring. */
  function CanonicalFragment(block: seq<Vec3>, center: nat, first: nat, second: nat, sqrt: real -> real): (r: seq<Vec3>)
    requires center < |block| && first < |block| && second < |block|
    ensures |r| == |block|
  {
    MirrorIfNeeded(TranslateAndRotate(block, center, first, second, sqrt))
  }

  /** A fresh array holding `rows`. */
  method NewRows(rows: seq<Vec3>) returns (a: array<Vec3>)
    ensures fresh(a) && a[..] == rows
  {
    a := new Vec3[|rows|](i requires 0 <= i < |rows| => rows[i]);
  }

  /** The outcome of `do_kabsch_align` on the coordinate rows `d0`: rows
      `d`, and the `mirrored` and `rmse` columns.  The first fragment is
      translated, rotated and mirrored; every later fragment is fitted onto
      the central rows of the treated first fragment and mirrored, and
      scored; fragment 0 keeps the initial RMSE 0; rows after the last whole
      fragment are untouched. */
  ghost predicate KabschAligned(d0: seq<Vec3>, d: seq<Vec3>, mirrored: seq<bool>, rmse: seq<real>,
                                fragments: nat, noAtoms: nat, noAtomsCentral: nat,
                                center: nat, first: nat, second: nat,
                                sqrt: real -> real, fit: (seq<Vec3>, seq<Vec3>) -> Matrix3)
    requires 1 <= fragments && Start(fragments, noAtoms) <= |d0|
    requires 0 < noAtomsCentral <= noAtoms
    requires center < noAtoms && first < noAtoms && second < noAtoms
  {
    BlockOrder(0, fragments, noAtoms);
    var f0 := CanonicalFragment(Block(d0, 0, noAtoms), center, first, second, sqrt);
    var m0 := NegativeMeanZ(TranslateAndRotate(Block(d0, 0, noAtoms), center, first, second, sqrt));
    var reference := f0[..noAtomsCentral];
    BlocksMapped(d0, d, fragments, noAtoms, f0, AlignStep(reference, fit)) &&
    ColumnOf(mirrored, d0, fragments, noAtoms, m0, MirrorStep(reference, fit)) &&
    ColumnOf(rmse, d0, fragments, noAtoms, 0.0, RmseStep(reference, sqrt, fit))
  }

  /** The loop body's three results for one fragment `b >= 1`, as functions
      of the fragment's rows before the iteration: its new rows, its
      `mirrored` entry and its `rmse` entry.  Fragments are never shorter
      than the reference; the guards only make the functions total. */
  function AlignStep(reference: seq<Vec3>, fit: (seq<Vec3>, seq<Vec3>) -> Matrix3): seq<Vec3> -> seq<Vec3>
  {
    b => if 0 < |reference| <= |b| then KabschFragment(reference, b, fit) else b
  }

  function MirrorStep(reference: seq<Vec3>, fit: (seq<Vec3>, seq<Vec3>) -> Matrix3): seq<Vec3> -> bool
  {
    b => 0 < |reference| <= |b| && FitMirrored(reference, b, fit)
  }

  function RmseStep(reference: seq<Vec3>, sqrt: real -> real, fit: (seq<Vec3>, seq<Vec3>) -> Matrix3): seq<Vec3> -> real
  {
    b => if 0 < |reference| <= |b| then FitRmse(reference, b, sqrt, fit) else 0.0
  }

  /** Fragment by fragment: every later fragment is its Kabsch-aligned,
      mirrored self, its `mirrored` entry says whether the fit left its mean
      z negative, and its `rmse` entry scores its new central rows against
      the reference. */
  lemma KabschAlignedFragment(d0: seq<Vec3>, d: seq<Vec3>, mirrored: seq<bool>, rmse: seq<real>,
                              fragments: nat, noAtoms: nat, noAtomsCentral: nat,
                              center: nat, first: nat, second: nat,
                              sqrt: real -> real, fit: (seq<Vec3>, seq<Vec3>) -> Matrix3, k: nat)
    requires 1 <= fragments && Start(fragments, noAtoms) <= |d0|
    requires 0 < noAtomsCentral <= noAtoms
    requires center < noAtoms && first < noAtoms && second < noAtoms
    requires KabschAligned(d0, d, mirrored, rmse, fragments, noAtoms, noAtomsCentral, center, first, second, sqrt, fit)
    requires 1 <= k < fragments
    ensures Start(k, noAtoms) + noAtoms <= |d0| == |d| && |mirrored| == |rmse| == fragments
    ensures var reference := Block(d, 0, noAtoms)[..noAtomsCentral];
      Block(d, k, noAtoms) == KabschFragment(reference, Block(d0, k, noAtoms), fit) &&
      mirrored[k] == FitMirrored(reference, Block(d0, k, noAtoms), fit) &&
      rmse[k] == CalcRmse(reference, Block(d, k, noAtoms)[..noAtomsCentral], noAtomsCentral, sqrt)
  {
    BlockOrder(0, fragments, noAtoms);
    BlockOrder(k, fragments, noAtoms);
    var f0 := CanonicalFragment(Block(d0, 0, noAtoms), center, first, second, sqrt);
    var reference := f0[..noAtomsCentral];
    var b := Block(d0, k, noAtoms);
    assert Block(d, 0, noAtoms) == f0;
    assert Block(d, k, noAtoms) == AlignStep(reference, fit)(b) == KabschFragment(reference, b, fit);
    assert mirrored[k] == MirrorStep(reference, fit)(b);
    assert rmse[k] == RmseStep(reference, sqrt, fit)(b);
  }

  /** `do_kabsch_align` after the data are read: the first fragment is
      translated, rotated and mirrored and written back; its central rows
      become the reference `A`; each later fragment is fitted onto `A`,
      mirrored, scored and written back over its own rows.  `mirrored` and
      `rmse` are the two columns of the structures table, initially false
      and 0.  The center and the two rotation atoms are parameters. */
  method DoKabschAlign(data: array<Vec3>, fragments: nat, noAtoms: nat, noAtomsCentral: nat,
                       center: nat, first: nat, second: nat,
                       sqrt: real -> real, fit: (seq<Vec3>, seq<Vec3>) -> Matrix3)
    returns (mirrored: array<bool>, rmse: array<real>)
    requires 1 <= fragments && Start(fragments, noAtoms) <= data.Length
    requires 0 < noAtomsCentral <= noAtoms
    requires center < noAtoms && first < noAtoms && second < noAtoms
    modifies data
    ensures fresh(mirrored) && fresh(rmse)
    ensures mirrored.Length == fragments && rmse.Length == fragments
    ensures KabschAligned(old(data[..]), data[..], mirrored[..], rmse[..], fragments, noAtoms, noAtomsCentral,
                          center, first, second, sqrt, fit)
  {
    ghost var d0 := data[..];
    BlockOrder(0, fragments, noAtoms);
    mirrored := new bool[fragments](_ => false);
    rmse := new real[fragments](_ => 0.0);

    var m0 := Canonicalize(data, 0, noAtoms, center, first, second, sqrt);
    mirrored[0] := m0;
    ghost var d1 := data[..];
    var reference := data[..noAtomsCentral];
    assert |d1| == |d0| && reference == d1[..noAtomsCentral] && rmse[0] == 0.0;
    AlignRest(data, mirrored, rmse, fragments, noAtoms, reference, sqrt, fit);
    KabschAlignedIntro(d0, d1, data[..], mirrored[..], rmse[..], fragments, noAtoms, noAtomsCentral,
                       center, first, second, sqrt, fit, reference, m0);
  }

  /** What the treatment of the first fragment and the loop leave behind is
      the outcome `KabschAligned` describes. */
  lemma KabschAlignedIntro(d0: seq<Vec3>, d1: seq<Vec3>, d: seq<Vec3>, mirrored: seq<bool>, rmse: seq<real>,
                           fragments: nat, noAtoms: nat, noAtomsCentral: nat,
                           center: nat, first: nat, second: nat,
                           sqrt: real -> real, fit: (seq<Vec3>, seq<Vec3>) -> Matrix3,
                           reference: seq<Vec3>, m0: bool)
    requires 1 <= fragments && Start(fragments, noAtoms) <= |d0|
    requires 0 < noAtomsCentral <= noAtoms
    requires center < noAtoms && first < noAtoms && second < noAtoms
    requires noAtoms <= |d0|
    requires m0 == NegativeMeanZ(TranslateAndRotate(Block(d0, 0, noAtoms), center, first, second, sqrt))
    requires d1 == Splice(d0, 0, CanonicalFragment(Block(d0, 0, noAtoms), center, first, second, sqrt))
    requires |d1| == |d0| && reference == d1[..noAtomsCentral]
    requires MappedUpTo(d1, d, fragments, noAtoms, AlignStep(reference, fit))
    requires |mirrored| == fragments && ColumnUpTo(mirrored, d1, fragments, noAtoms, m0, MirrorStep(reference, fit))
    requires |rmse| == fragments && ColumnUpTo(rmse, d1, fragments, noAtoms, 0.0, RmseStep(reference, sqrt, fit))
    ensures KabschAligned(d0, d, mirrored, rmse, fragments, noAtoms, noAtomsCentral,
                          center, first, second, sqrt, fit)
  {
    BlockOrder(0, fragments, noAtoms);
    var f0 := CanonicalFragment(Block(d0, 0, noAtoms), center, first, second, sqrt);
    SpliceFront(d0, f0, noAtomsCentral);
    MappedOutcome(d0, f0, d, fragments, noAtoms, AlignStep(reference, fit));
    ColumnOutcome(mirrored, d0, f0, fragments, noAtoms, m0, MirrorStep(reference, fit));
    ColumnOutcome(rmse, d0, f0, fragments, noAtoms, 0.0, RmseStep(reference, sqrt, fit));
  }

  /** The loop of `do_kabsch_align` over fragments `1 .. fragments-1`: each
      is fitted onto `reference`, mirrored, scored and written back, and its
      entries of the `mirrored` and `rmse` columns are set. */
  method AlignRest(data: array<Vec3>, mirrored: array<bool>, rmse: array<real>,
                   fragments: nat, noAtoms: nat, reference: seq<Vec3>,
                   sqrt: real -> real, fit: (seq<Vec3>, seq<Vec3>) -> Matrix3)
    requires 1 <= fragments && Start(fragments, noAtoms) <= data.Length
    requires 0 < |reference| <= noAtoms
    requires mirrored.Length == fragments && rmse.Length == fragments
    modifies data, mirrored, rmse
    ensures MappedUpTo(old(data[..]), data[..], fragments, noAtoms, AlignStep(reference, fit))
    ensures ColumnUpTo(mirrored[..], old(data[..]), fragments, noAtoms, old(mirrored[0]), MirrorStep(reference, fit))
    ensures ColumnUpTo(rmse[..], old(data[..]), fragments, noAtoms, old(rmse[0]), RmseStep(reference, sqrt, fit))
  {
    ghost var d1 := data[..];
    ghost var m0, e0 := mirrored[0], rmse[0];
    StartMonotone(1, fragments, noAtoms);
    MappedFirst(d1, noAtoms, AlignStep(reference, fit));
    var i := 1;
    while i < fragments
      invariant 1 <= i <= fragments
      invariant Start(i, noAtoms) <= Start(fragments, noAtoms)
      invariant MappedUpTo(d1, data[..], i, noAtoms, AlignStep(reference, fit))
      invariant ColumnUpTo(mirrored[..], d1, i, noAtoms, m0, MirrorStep(reference, fit))
      invariant ColumnUpTo(rmse[..], d1, i, noAtoms, e0, RmseStep(reference, sqrt, fit))
    {
      BlockOrder(i, fragments, noAtoms);
      StartMonotone(i + 1, fragments, noAtoms);
      ghost var cur, cm, ce := data[..], mirrored[..], rmse[..];
      MappedAhead(d1, cur, i, noAtoms, AlignStep(reference, fit));
      var m, e := KabschOne(data, i, noAtoms, reference, sqrt, fit);
      mirrored[i] := m;
      rmse[i] := e;
      MappedNext(d1, cur, i, noAtoms, AlignStep(reference, fit), KabschFragment(reference, Block(cur, i, noAtoms), fit));
      ColumnNext(cm, d1, i, noAtoms, m0, MirrorStep(reference, fit), m);
      ColumnNext(ce, d1, i, noAtoms, e0, RmseStep(reference, sqrt, fit), e);
      i := i + 1;
    }
  }

  /** The treatment of fragment `k` (its `noAtoms` rows): translated,
      rotated and mirrored as a copy, then written back over its rows.
      Returns whether it was mirrored. */
  method Canonicalize(data: array<Vec3>, k: nat, noAtoms: nat, center: nat, first: nat, second: nat,
                      sqrt: real -> real)
    returns (mirrored: bool)
    requires Start(k, noAtoms) + noAtoms <= data.Length
    requires center < noAtoms && first < noAtoms && second < noAtoms
    modifies data
    ensures var b := Block(old(data[..]), k, noAtoms);
      mirrored == NegativeMeanZ(TranslateAndRotate(b, center, first, second, sqrt)) &&
      data[..] == Splice(old(data[..]), Start(k, noAtoms), CanonicalFragment(b, center, first, second, sqrt))
  {
    var begin := Start(k, noAtoms);
    var part := data[begin..begin + noAtoms];
    assert part == Block(data[..], k, noAtoms);
    var a := NewRows(TranslateAndRotate(part, center, first, second, sqrt));
    mirrored := MirrorRows(a);
    WriteBlock(data, begin, a[..]);
  }

  /** One iteration of the fragment loop on fragment `k` (its `noAtoms` rows):
      the Kabsch fit of their first `|reference|` rows onto the reference,
      applied to all of them, mirroring, the RMSE of the central rows, and
      the write-back. */
  method KabschOne(data: array<Vec3>, k: nat, noAtoms: nat, reference: seq<Vec3>,
                   sqrt: real -> real, fit: (seq<Vec3>, seq<Vec3>) -> Matrix3)
    returns (mirrored: bool, rmse: real)
    requires 0 < |reference| <= noAtoms && Start(k, noAtoms) + noAtoms <= data.Length
    modifies data
    ensures var b := Block(old(data[..]), k, noAtoms);
      data[..] == Splice(old(data[..]), Start(k, noAtoms), KabschFragment(reference, b, fit)) &&
      mirrored == FitMirrored(reference, b, fit) &&
      rmse == FitRmse(reference, b, sqrt, fit)
  {
    var begin := Start(k, noAtoms);
    var bTotal := data[begin..begin + noAtoms];
    assert bTotal == Block(data[..], k, noAtoms);
    var bCentral := bTotal[..|reference|];
    var b2 := NewRows(KabschAlign(reference, bCentral, bTotal, fit));
    mirrored := MirrorRows(b2);
    rmse := CalcRmse(reference, b2[..|reference|], |reference|, sqrt);
    WriteBlock(data, begin, b2[..]);
  }

  /** What a Kabsch-aligned fragment looks like: the fit carries the
      centroid of its central group onto the centroid of the reference
      (before mirroring, which only negates z), and the mean z of the
      written fragment is not negative. */
  lemma KabschFragmentSpec(reference: seq<Vec3>, block: seq<Vec3>, fit: (seq<Vec3>, seq<Vec3>) -> Matrix3)
    requires 0 < |reference| <= |block|
    ensures var moved := KabschAlign(reference, block[..|reference|], block, fit);
      Mean(moved[..|reference|]) == Mean(reference) &&
      0.0 <= Sum(Zs(KabschFragment(reference, block, fit)))
  {
    var b := block[..|reference|];
    KabschPrefix(reference, b, block, fit);
    KabschCentroid(reference, b, fit);
    MirrorIfNeededSpec(KabschAlign(reference, b, block, fit));
  }

  /** The RMSE of each fragment is non-negative and zero exactly when its
      aligned central group coincides with the reference. */
  lemma KabschRmseZeroIff(reference: seq<Vec3>, aligned: seq<Vec3>, sqrt: real -> real)
    requires IsSqrt(sqrt)
    requires 0 < |reference| <= |aligned|
    ensures var e := CalcRmse(reference, aligned[..|reference|], |reference|, sqrt);
      0.0 <= e && (e == 0.0 <==> aligned[..|reference|] == reference)
  {
    CalcRmseZeroIff(reference, aligned[..|reference|], |reference|, sqrt);
  }
}
