/** Cartesian coordinates of atoms and the arithmetic the pipeline does on
    them with numpy rows. */
module Vectors {
  import opened Reals
  import opened Lists

  datatype Vec3 = Vec3(x: real, y: real, z: real)

  const Origin := Vec3(0.0, 0.0, 0.0)

  function Add(a: Vec3, b: Vec3): Vec3 { Vec3(a.x + b.x, a.y + b.y, a.z + b.z) }
  function Sub(a: Vec3, b: Vec3): Vec3 { Vec3(a.x - b.x, a.y - b.y, a.z - b.z) }
  function Scale(a: Vec3, c: real): Vec3 { Vec3(a.x * c, a.y * c, a.z * c) }
  function Dot(a: Vec3, b: Vec3): real { a.x * b.x + a.y * b.y + a.z * b.z }
  function SqNorm(a: Vec3): real { Dot(a, a) }
  function SqDist(a: Vec3, b: Vec3): real { SqNorm(Sub(a, b)) }

  lemma SqNormNonNegative(a: Vec3)
    ensures 0.0 <= SqNorm(a)
    ensures SqNorm(a) == 0.0 <==> a == Origin
  {
    SquareNonNegative(a.x);
    SquareNonNegative(a.y);
    SquareNonNegative(a.z);
  }

  /** A squared distance is non-negative and zero only between equal points. */
  lemma SqDistZeroIff(a: Vec3, b: Vec3)
    ensures 0.0 <= SqDist(a, b)
    ensures SqDist(a, b) == 0.0 <==> a == b
  {
    SqNormNonNegative(Sub(a, b));
    SubZeroIff(a, b);
  }

  lemma SubZeroIff(a: Vec3, b: Vec3)
    ensures Sub(a, b) == Origin <==> a == b
  {
  }

  /** The x, y and z columns of a block of rows. */
  function Xs(rows: seq<Vec3>): (r: seq<real>)
    ensures |r| == |rows|
    decreases |rows|
  {
    if rows == [] then [] else Xs(rows[..|rows| - 1]) + [rows[|rows| - 1].x]
  }

  function Ys(rows: seq<Vec3>): (r: seq<real>)
    ensures |r| == |rows|
    decreases |rows|
  {
    if rows == [] then [] else Ys(rows[..|rows| - 1]) + [rows[|rows| - 1].y]
  }

  function Zs(rows: seq<Vec3>): (r: seq<real>)
    ensures |r| == |rows|
    decreases |rows|
  {
    if rows == [] then [] else Zs(rows[..|rows| - 1]) + [rows[|rows| - 1].z]
  }

  /** Entry `i` of each column is the coordinate of row `i`. */
  lemma {:induction false} CoordsAt(rows: seq<Vec3>, i: nat)
    requires i < |rows|
    ensures Xs(rows)[i] == rows[i].x && Ys(rows)[i] == rows[i].y && Zs(rows)[i] == rows[i].z
    decreases |rows|
  {
    if i < |rows| - 1 {
      CoordsAt(rows[..|rows| - 1], i);
    }
  }

  /** Adding one more row to a prefix adds its z to the z sum. */
  lemma SumZsPrefix(rows: seq<Vec3>, i: nat)
    requires i < |rows|
    ensures Sum(Zs(rows[..i + 1])) == Sum(Zs(rows[..i])) + rows[i].z
  {
    assert rows[..i + 1][..i] == rows[..i];
  }

  /** Column-wise sum of a block of rows. */
  function SumRows(rows: seq<Vec3>): Vec3
  {
    Vec3(Sum(Xs(rows)), Sum(Ys(rows)), Sum(Zs(rows)))
  }

  /** Column-wise mean (`np.mean(rows, axis=0)`); undefined for no rows. */
  function Mean(rows: seq<Vec3>): Vec3
    requires |rows| > 0
  {
    Scale(SumRows(rows), 1.0 / |rows| as real)
  }

  /** The z of `v` scaled by `1 / n` is the z of `v` divided by `n`. */
  lemma ScaledZ(v: Vec3, n: real, m: Vec3, z: real)
    requires n != 0.0 && m == Scale(v, 1.0 / n) && z == v.z
    ensures m.z == z / n
  {
    DivIsMulInverse(z, n);
  }

  /** `rows + t` for every row. */
  function TranslateAll(rows: seq<Vec3>, t: Vec3): (r: seq<Vec3>)
    ensures |r| == |rows|
    decreases |rows|
  {
    if rows == [] then [] else TranslateAll(rows[..|rows| - 1], t) + [Add(rows[|rows| - 1], t)]
  }

  lemma {:induction false} TranslateAllAt(rows: seq<Vec3>, t: Vec3, i: nat)
    requires i < |rows|
    ensures TranslateAll(rows, t)[i] == Add(rows[i], t)
    decreases |rows|
  {
    if i < |rows| - 1 {
      TranslateAllAt(rows[..|rows| - 1], t, i);
    }
  }

  /** A block whose every row is the matching row of `rows` plus `t` is
      `TranslateAll(rows, t)`. */
  lemma TranslateAllPointwise(rows: seq<Vec3>, moved: seq<Vec3>, t: Vec3)
    requires |moved| == |rows|
    requires forall i :: 0 <= i < |rows| ==> moved[i] == Add(rows[i], t)
    ensures moved == TranslateAll(rows, t)
  {
    forall i | 0 <= i < |rows|
      ensures moved[i] == TranslateAll(rows, t)[i]
    {
      TranslateAllAt(rows, t, i);
    }
  }

  /** Adding the same vector to two rows leaves their difference unchanged. */
  lemma TranslationKeepsDifferences(a: Vec3, b: Vec3, t: Vec3)
    ensures Sub(Add(a, t), Add(b, t)) == Sub(a, b)
  {
  }

  function GetX(v: Vec3): real { v.x }
  function GetY(v: Vec3): real { v.y }
  function GetZ(v: Vec3): real { v.z }

  /** Each coordinate column is the rows' coordinate, row by row. */
  lemma CoordsAsMap(rows: seq<Vec3>)
    ensures Xs(rows) == MapSeq(rows, GetX) && Ys(rows) == MapSeq(rows, GetY) && Zs(rows) == MapSeq(rows, GetZ)
  {
    XsAsMap(rows);
    YsAsMap(rows);
    ZsAsMap(rows);
  }

  lemma {:induction false} XsAsMap(rows: seq<Vec3>)
    ensures Xs(rows) == MapSeq(rows, GetX)
    decreases |rows|
  {
    if rows != [] {
      var n := |rows| - 1;
      XsAsMap(rows[..n]);
      assert MapSeq(rows, GetX) == MapSeq(rows[..n], GetX) + [rows[n].x];
    }
  }

  lemma {:induction false} YsAsMap(rows: seq<Vec3>)
    ensures Ys(rows) == MapSeq(rows, GetY)
    decreases |rows|
  {
    if rows != [] {
      var n := |rows| - 1;
      YsAsMap(rows[..n]);
      assert MapSeq(rows, GetY) == MapSeq(rows[..n], GetY) + [rows[n].y];
    }
  }

  lemma {:induction false} ZsAsMap(rows: seq<Vec3>)
    ensures Zs(rows) == MapSeq(rows, GetZ)
    decreases |rows|
  {
    if rows != [] {
      var n := |rows| - 1;
      ZsAsMap(rows[..n]);
      assert MapSeq(rows, GetZ) == MapSeq(rows[..n], GetZ) + [rows[n].z];
    }
  }

  /** Reordering the rows keeps the column sums. */
  lemma SumRowsPermutation(a: seq<Vec3>, b: seq<Vec3>)
    requires multiset(a) == multiset(b)
    ensures SumRows(a) == SumRows(b)
  {
    CoordsAsMap(a);
    CoordsAsMap(b);
    MapPermutation(a, b, GetX);
    MapPermutation(a, b, GetY);
    MapPermutation(a, b, GetZ);
    SumPermutation(Xs(a), Xs(b));
    SumPermutation(Ys(a), Ys(b));
    SumPermutation(Zs(a), Zs(b));
  }

  /** Reordering the rows keeps the mean. */
  lemma MeanPermutation(a: seq<Vec3>, b: seq<Vec3>)
    requires |a| > 0 && multiset(a) == multiset(b)
    ensures |b| == |a| && Mean(a) == Mean(b)
  {
    assert |multiset(a)| == |a| && |multiset(b)| == |b|;
    SumRowsPermutation(a, b);
  }
}
