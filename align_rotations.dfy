/** The rotation-only alignment script: every fragment, the first one
    included, gets its center atom translated to the origin, the three
    canonicalising rotations and the z-mirroring, and every fragment after
    the first is scored by the RMSE of all its rows against the treated
    first fragment.

    As in the Kabsch script, fragment `i` occupies the `noAtoms` rows from
    `Start(i, noAtoms)` on; the center atom and the two rotation atoms are
    parameters (row indices inside a fragment). */
module AlignRotations {
  import opened Reals
  import opened Vectors
  import opened Blocks
  import opened AlignmentHelpers
  import opened AlignKabsch

  /** Whether the treatment of a fragment flips it: its mean z after the
      translation and the rotations is negative. */
  predicate Flipped(block: seq<Vec3>, center: nat, first: nat, second: nat, sqrt: real -> real)
    requires center < |block| && first < |block| && second < |block|
  {
    NegativeMeanZ(TranslateAndRotate(block, center, first, second, sqrt))
  }

  /** The RMSE of a treated fragment against `reference`, over all its rows. */
  function CanonicalRmse(reference: seq<Vec3>, block: seq<Vec3>, center: nat, first: nat, second: nat,
                         sqrt: real -> real): real
    requires center < |block| && first < |block| && second < |block| && |block| == |reference|
  {
    CalcRmse(reference, CanonicalFragment(block, center, first, second, sqrt), |block|, sqrt)
  }

  /** The loop body's results for one fragment, as functions of its rows
      before the iteration: the treated rows, the `mirrored` entry, and the
      `rmse` entry against the treated first fragment `reference`.  The
      guards only make the functions total. */
  function CanonStep(center: nat, first: nat, second: nat, sqrt: real -> real): seq<Vec3> -> seq<Vec3>
  {
    b => if center < |b| && first < |b| && second < |b| then CanonicalFragment(b, center, first, second, sqrt) else b
  }

  function FlipStep(center: nat, first: nat, second: nat, sqrt: real -> real): seq<Vec3> -> bool
  {
    b => center < |b| && first < |b| && second < |b| && Flipped(b, center, first, second, sqrt)
  }

  function ScoreStep(reference: seq<Vec3>, center: nat, first: nat, second: nat, sqrt: real -> real): seq<Vec3> -> real
  {
    b => if center < |b| && first < |b| && second < |b| && |b| == |reference|
         then CanonicalRmse(reference, b, center, first, second, sqrt)
         else 0.0
  }

  /** The outcome of the script on the coordinate rows `d0`: every fragment
      treated, the `mirrored` column true exactly for the flipped fragments,
      and the `rmse` column (0 for fragment 0) scoring each later treated
      fragment against the treated first one. */
  ghost predicate RotationsAligned(d0: seq<Vec3>, d: seq<Vec3>, mirrored: seq<bool>, rmse: seq<real>,
                                   fragments: nat, noAtoms: nat, center: nat, first: nat, second: nat,
                                   sqrt: real -> real)
    requires 1 <= fragments && Start(fragments, noAtoms) <= |d0|
    requires center < noAtoms && first < noAtoms && second < noAtoms
  {
    BlockOrder(0, fragments, noAtoms);
    var b0 := Block(d0, 0, noAtoms);
    var f0 := CanonicalFragment(b0, center, first, second, sqrt);
    BlocksMapped(d0, d, fragments, noAtoms, f0, CanonStep(center, first, second, sqrt)) &&
    ColumnOf(mirrored, d0, fragments, noAtoms, FlipStep(center, first, second, sqrt)(b0),
             FlipStep(center, first, second, sqrt)) &&
    ColumnOf(rmse, d0, fragments, noAtoms, 0.0, ScoreStep(f0, center, first, second, sqrt))
  }

  /** Fragment by fragment, the first one included: every fragment is its
      canonical self, its `mirrored` entry says whether it was flipped, and
      every later fragment's `rmse` entry scores its new rows against the
      new first fragment. */
  lemma RotationsAlignedFragment(d0: seq<Vec3>, d: seq<Vec3>, mirrored: seq<bool>, rmse: seq<real>,
                                 fragments: nat, noAtoms: nat, center: nat, first: nat, second: nat,
                                 sqrt: real -> real, k: nat)
    requires 1 <= fragments && Start(fragments, noAtoms) <= |d0|
    requires center < noAtoms && first < noAtoms && second < noAtoms
    requires RotationsAligned(d0, d, mirrored, rmse, fragments, noAtoms, center, first, second, sqrt)
    requires k < fragments
    ensures Start(k, noAtoms) + noAtoms <= |d0| == |d| && |mirrored| == |rmse| == fragments
    ensures Block(d, k, noAtoms) == CanonicalFragment(Block(d0, k, noAtoms), center, first, second, sqrt)
    ensures mirrored[k] == Flipped(Block(d0, k, noAtoms), center, first, second, sqrt)
    ensures 1 <= k ==> rmse[k] == CalcRmse(Block(d, 0, noAtoms), Block(d, k, noAtoms), noAtoms, sqrt)
  {
    BlockOrder(0, fragments, noAtoms);
    BlockOrder(k, fragments, noAtoms);
    var b := Block(d0, k, noAtoms);
    var f0 := CanonicalFragment(Block(d0, 0, noAtoms), center, first, second, sqrt);
    assert Block(d, 0, noAtoms) == f0;
    if 1 <= k {
      assert Block(d, k, noAtoms) == CanonStep(center, first, second, sqrt)(b);
      assert mirrored[k] == FlipStep(center, first, second, sqrt)(b);
      assert rmse[k] == ScoreStep(f0, center, first, second, sqrt)(b);
    }
  }

  /** What every treated fragment looks like: the center atom at the
      origin, a mean z that is not negative, and the same pairwise
      distances as before. */
  lemma CanonicalFragmentSpec(block: seq<Vec3>, center: nat, first: nat, second: nat,
                              sqrt: real -> real, i: nat, j: nat)
    requires IsSqrt(sqrt)
    requires center < |block| && first < |block| && second < |block|
    requires i < |block| && j < |block|
    ensures var r := CanonicalFragment(block, center, first, second, sqrt);
      r[center] == Origin && 0.0 <= Sum(Zs(r)) &&
      SqDist(r[i], r[j]) == SqDist(block[i], block[j])
  {
    var t := TranslateAndRotate(block, center, first, second, sqrt);
    TranslateAndRotateCenter(block, center, first, second, sqrt);
    TranslateAndRotateKeepsDistances(block, center, first, second, sqrt, i, j);
    MirrorIfNeededSpec(t);
    MirrorIfNeededKeepsDistances(t, i, j);
  }

  /** The script after the data are read: fragment 0 is treated and written
      back, then each later fragment is treated, written back over its own
      rows and scored against the treated first fragment.  `mirrored` and
      `rmse` are the two columns of the structures table, initially false
      and 0. */
  method DoRotationAlign(data: array<Vec3>, fragments: nat, noAtoms: nat,
                         center: nat, first: nat, second: nat, sqrt: real -> real)
    returns (mirrored: array<bool>, rmse: array<real>)
    requires 1 <= fragments && Start(fragments, noAtoms) <= data.Length
    requires center < noAtoms && first < noAtoms && second < noAtoms
    modifies data
    ensures fresh(mirrored) && fresh(rmse)
    ensures mirrored.Length == fragments && rmse.Length == fragments
    ensures RotationsAligned(old(data[..]), data[..], mirrored[..], rmse[..], fragments, noAtoms,
                             center, first, second, sqrt)
  {
    ghost var d0 := data[..];
    BlockOrder(0, fragments, noAtoms);
    mirrored := new bool[fragments](_ => false);
    rmse := new real[fragments](_ => 0.0);

    var m0 := Canonicalize(data, 0, noAtoms, center, first, second, sqrt);
    mirrored[0] := m0;
    ghost var d1 := data[..];
    var reference := data[..noAtoms];
    assert |d1| == |d0| && reference == d1[..noAtoms] && rmse[0] == 0.0;
    RotateRest(data, mirrored, rmse, fragments, noAtoms, reference, center, first, second, sqrt);
    RotationsAlignedIntro(d0, d1, data[..], mirrored[..], rmse[..], fragments, noAtoms,
                          center, first, second, sqrt, reference, m0);
  }

  /** What the treatment of the first fragment and the loop leave behind is
      the outcome `RotationsAligned` describes. */
  lemma RotationsAlignedIntro(d0: seq<Vec3>, d1: seq<Vec3>, d: seq<Vec3>, mirrored: seq<bool>, rmse: seq<real>,
                              fragments: nat, noAtoms: nat, center: nat, first: nat, second: nat,
                              sqrt: real -> real, reference: seq<Vec3>, m0: bool)
    requires 1 <= fragments && Start(fragments, noAtoms) <= |d0|
    requires center < noAtoms && first < noAtoms && second < noAtoms
    requires noAtoms <= |d0|
    requires m0 == Flipped(Block(d0, 0, noAtoms), center, first, second, sqrt)
    requires d1 == Splice(d0, 0, CanonicalFragment(Block(d0, 0, noAtoms), center, first, second, sqrt))
    requires |d1| == |d0| && reference == d1[..noAtoms]
    requires MappedUpTo(d1, d, fragments, noAtoms, CanonStep(center, first, second, sqrt))
    requires |mirrored| == fragments && ColumnUpTo(mirrored, d1, fragments, noAtoms, m0, FlipStep(center, first, second, sqrt))
    requires |rmse| == fragments && ColumnUpTo(rmse, d1, fragments, noAtoms, 0.0, ScoreStep(reference, center, first, second, sqrt))
    ensures RotationsAligned(d0, d, mirrored, rmse, fragments, noAtoms, center, first, second, sqrt)
  {
    BlockOrder(0, fragments, noAtoms);
    var f0 := CanonicalFragment(Block(d0, 0, noAtoms), center, first, second, sqrt);
    SpliceFront(d0, f0, noAtoms);
    assert reference == f0;
    MappedOutcome(d0, f0, d, fragments, noAtoms, CanonStep(center, first, second, sqrt));
    ColumnOutcome(mirrored, d0, f0, fragments, noAtoms, m0, FlipStep(center, first, second, sqrt));
    ColumnOutcome(rmse, d0, f0, fragments, noAtoms, 0.0, ScoreStep(reference, center, first, second, sqrt));
  }

  /** The loop over fragments `1 .. fragments-1`: each is treated, written
      back, and scored against `reference` over all its rows. */
  method RotateRest(data: array<Vec3>, mirrored: array<bool>, rmse: array<real>,
                    fragments: nat, noAtoms: nat, reference: seq<Vec3>,
                    center: nat, first: nat, second: nat, sqrt: real -> real)
    requires 1 <= fragments && Start(fragments, noAtoms) <= data.Length
    requires center < noAtoms && first < noAtoms && second < noAtoms && |reference| == noAtoms
    requires mirrored.Length == fragments && rmse.Length == fragments
    modifies data, mirrored, rmse
    ensures MappedUpTo(old(data[..]), data[..], fragments, noAtoms, CanonStep(center, first, second, sqrt))
    ensures ColumnUpTo(mirrored[..], old(data[..]), fragments, noAtoms, old(mirrored[0]), FlipStep(center, first, second, sqrt))
    ensures ColumnUpTo(rmse[..], old(data[..]), fragments, noAtoms, old(rmse[0]), ScoreStep(reference, center, first, second, sqrt))
  {
    ghost var d1 := data[..];
    ghost var m0, e0 := mirrored[0], rmse[0];
    StartMonotone(1, fragments, noAtoms);
    MappedFirst(d1, noAtoms, CanonStep(center, first, second, sqrt));
    var i := 1;
    while i < fragments
      invariant 1 <= i <= fragments
      invariant Start(i, noAtoms) <= Start(fragments, noAtoms)
      invariant MappedUpTo(d1, data[..], i, noAtoms, CanonStep(center, first, second, sqrt))
      invariant ColumnUpTo(mirrored[..], d1, i, noAtoms, m0, FlipStep(center, first, second, sqrt))
      invariant ColumnUpTo(rmse[..], d1, i, noAtoms, e0, ScoreStep(reference, center, first, second, sqrt))
    {
      BlockOrder(i, fragments, noAtoms);
      StartMonotone(i + 1, fragments, noAtoms);
      RotateAt(data, mirrored, rmse, i, noAtoms, reference, center, first, second, sqrt, d1, m0, e0);
      i := i + 1;
    }
  }

  /** The loop body of `RotateRest` for fragment `i`, with its two table
      entries. */
  method RotateAt(data: array<Vec3>, mirrored: array<bool>, rmse: array<real>, i: nat, noAtoms: nat,
                  reference: seq<Vec3>, center: nat, first: nat, second: nat, sqrt: real -> real,
                  ghost d1: seq<Vec3>, ghost m0: bool, ghost e0: real)
    requires 1 <= i < mirrored.Length && i < rmse.Length
    requires Start(i, noAtoms) + noAtoms <= data.Length == |d1|
    requires center < noAtoms && first < noAtoms && second < noAtoms && |reference| == noAtoms
    requires MappedUpTo(d1, data[..], i, noAtoms, CanonStep(center, first, second, sqrt))
    requires ColumnUpTo(mirrored[..], d1, i, noAtoms, m0, FlipStep(center, first, second, sqrt))
    requires ColumnUpTo(rmse[..], d1, i, noAtoms, e0, ScoreStep(reference, center, first, second, sqrt))
    modifies data, mirrored, rmse
    ensures Start(i + 1, noAtoms) <= |d1|
    ensures MappedUpTo(d1, data[..], i + 1, noAtoms, CanonStep(center, first, second, sqrt))
    ensures ColumnUpTo(mirrored[..], d1, i + 1, noAtoms, m0, FlipStep(center, first, second, sqrt))
    ensures ColumnUpTo(rmse[..], d1, i + 1, noAtoms, e0, ScoreStep(reference, center, first, second, sqrt))
  {
    ghost var cur, cm, ce := data[..], mirrored[..], rmse[..];
    MappedAhead(d1, cur, i, noAtoms, CanonStep(center, first, second, sqrt));
    var m, e := RotateOne(data, i, noAtoms, reference, center, first, second, sqrt);
    mirrored[i] := m;
    rmse[i] := e;
    MappedNext(d1, cur, i, noAtoms, CanonStep(center, first, second, sqrt),
               CanonicalFragment(Block(cur, i, noAtoms), center, first, second, sqrt));
    ColumnNext(cm, d1, i, noAtoms, m0, FlipStep(center, first, second, sqrt), m);
    ColumnNext(ce, d1, i, noAtoms, e0, ScoreStep(reference, center, first, second, sqrt), e);
  }

  /** One iteration on fragment `k`: its treatment and write-back, and the
      RMSE of all its new rows against `reference`. */
  method RotateOne(data: array<Vec3>, k: nat, noAtoms: nat, reference: seq<Vec3>,
                   center: nat, first: nat, second: nat, sqrt: real -> real)
    returns (mirrored: bool, rmse: real)
    requires Start(k, noAtoms) + noAtoms <= data.Length
    requires center < noAtoms && first < noAtoms && second < noAtoms && |reference| == noAtoms
    modifies data
    ensures var b := Block(old(data[..]), k, noAtoms);
      data[..] == Splice(old(data[..]), Start(k, noAtoms), CanonicalFragment(b, center, first, second, sqrt)) &&
      mirrored == Flipped(b, center, first, second, sqrt) &&
      rmse == CanonicalRmse(reference, b, center, first, second, sqrt)
  {
    ghost var b := Block(data[..], k, noAtoms);
    mirrored := Canonicalize(data, k, noAtoms, center, first, second, sqrt);
    var begin := Start(k, noAtoms);
    var part := data[begin..begin + noAtoms];
    SpliceAt(old(data[..]), begin, CanonicalFragment(b, center, first, second, sqrt));
    assert part == CanonicalFragment(b, center, first, second, sqrt);
    rmse := CalcRmse(reference, part, noAtoms, sqrt);
  }
}
