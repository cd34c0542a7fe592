/** The geometric steps that superimpose fragments: header skipping, element
    symbols, translation of an atom to the origin, the three canonicalising
    axis rotations, and the RMSE between two fragments.

    Angles are not modelled: a rotation is its cosine/sine pair `(c, s)`.
    The canonicalising rotation that the source obtains as `arccos` of a
    normalised coordinate, signed by the rotation direction, is represented
    by the cosine and sine of that angle, computed algebraically with the
    abstract square root of module Reals. */
module AlignmentHelpers {
  import opened Reals
  import opened Vectors
  import opened Text
  import opened Blocks

  /** True for the header line of each block of one header and
      `amountAtoms` atom lines. */
  function Logic(index: nat, amountAtoms: nat): bool
  {
    index % (amountAtoms + 1) == 0
  }

  /** Line `j` of block `k` (line 0 being the header) is skipped exactly when
      it is the header. */
  lemma LogicSkipsOnlyHeaders(k: nat, j: nat, amountAtoms: nat)
    requires j <= amountAtoms
    ensures Logic(k * (amountAtoms + 1) + j, amountAtoms) <==> j == 0
  {
    var m := amountAtoms + 1;
    var i := k * m + j;
    RemainderUnique(i, m, k, j);
  }

  /** Element symbol of an atom id: its first character when the second is
      a digit, its first two characters otherwise. */
  function GetAtomSymbol(id: string): (r: string)
    requires |id| >= 2
    ensures IsPrefix(r, id)
    ensures |r| == 1 <==> IsDigit(id[1])
    ensures |r| == 1 || |r| == 2
  {
    if IsDigit(id[1]) then id[..1] else id[..2]
  }

  /** Shift every row so that row `indexCenter` lands on the origin. */
  function PerformTranslation(fragment: seq<Vec3>, indexCenter: nat): (r: seq<Vec3>)
    requires indexCenter < |fragment|
    ensures |r| == |fragment|
    ensures r[indexCenter] == Origin
  {
    var c := fragment[indexCenter];
    TranslateAllAt(fragment, Vec3(-c.x, -c.y, -c.z), indexCenter);
    TranslateAll(fragment, Vec3(-c.x, -c.y, -c.z))
  }

  /** Row `i` of the translation is row `i` minus the center row. */
  lemma PerformTranslationAt(fragment: seq<Vec3>, indexCenter: nat, i: nat)
    requires indexCenter < |fragment| && i < |fragment|
    ensures var c := fragment[indexCenter];
      PerformTranslation(fragment, indexCenter)[i] == Add(fragment[i], Vec3(-c.x, -c.y, -c.z))
  {
    var c := fragment[indexCenter];
    TranslateAllAt(fragment, Vec3(-c.x, -c.y, -c.z), i);
  }

  /** The translation keeps the difference between any two rows. */
  lemma PerformTranslationKeepsDifferences(fragment: seq<Vec3>, indexCenter: nat, i: nat, j: nat)
    requires indexCenter < |fragment| && i < |fragment| && j < |fragment|
    ensures var r := PerformTranslation(fragment, indexCenter);
      Sub(r[i], r[j]) == Sub(fragment[i], fragment[j])
  {
    var c := fragment[indexCenter];
    TranslateAllAt(fragment, Vec3(-c.x, -c.y, -c.z), i);
    TranslateAllAt(fragment, Vec3(-c.x, -c.y, -c.z), j);
    TranslationKeepsDifferences(fragment[i], fragment[j], Vec3(-c.x, -c.y, -c.z));
  }

  datatype Axis = X | Y | Z

  /** Copy of `atom` with the coordinate along `ax` zeroed: its projection
      onto the plane perpendicular to `ax`. */
  function FindCoordVector(ax: Axis, atom: Vec3): (r: Vec3)
    ensures ax == X ==> r == Vec3(0.0, atom.y, atom.z)
    ensures ax == Y ==> r == Vec3(atom.x, 0.0, atom.z)
    ensures ax == Z ==> r == Vec3(atom.x, atom.y, 0.0)
  {
    match ax
    case X => atom.(x := 0.0)
    case Y => atom.(y := 0.0)
    case Z => atom.(z := 0.0)
  }

  /** Sign of the rotation: -1 exactly when the coordinate that the rotation
      must cancel is negative (z for the x and y axes, y for the z axis). */
  function FindRotationDirection(ax: Axis, atom: Vec3): (d: int)
    ensures d == -1 || d == 1
    ensures d == -1 <==> (if ax == Z then atom.y else atom.z) < 0.0
  {
    match ax
    case X => if atom.z < 0.0 then -1 else 1
    case Y => if atom.z < 0.0 then -1 else 1
    case Z => if atom.y < 0.0 then -1 else 1
  }

  /** A rotation angle, given by its cosine and sine. */
  datatype Rotation = Rotation(c: real, s: real)

  predicate IsRotation(rot: Rotation) { rot.c * rot.c + rot.s * rot.s == 1.0 }

  /** A 3x3 matrix given by its rows. */
  datatype Matrix3 = Matrix3(r0: Vec3, r1: Vec3, r2: Vec3)

  function RotateX(rot: Rotation): Matrix3
  {
    Matrix3(Vec3(1.0, 0.0, 0.0), Vec3(0.0, rot.c, -rot.s), Vec3(0.0, rot.s, rot.c))
  }

  function RotateY(rot: Rotation): Matrix3
  {
    Matrix3(Vec3(rot.c, 0.0, -rot.s), Vec3(0.0, 1.0, 0.0), Vec3(rot.s, 0.0, rot.c))
  }

  function RotateZ(rot: Rotation): Matrix3
  {
    Matrix3(Vec3(rot.c, -rot.s, 0.0), Vec3(rot.s, rot.c, 0.0), Vec3(0.0, 0.0, 1.0))
  }

  function RotationMatrix(ax: Axis, rot: Rotation): Matrix3
  {
    match ax
    case X => RotateX(rot)
    case Y => RotateY(rot)
    case Z => RotateZ(rot)
  }

  /** Row vector times matrix, numpy's `np.dot(v, M)` for a row `v`. */
  function VecMat(v: Vec3, m: Matrix3): Vec3
  {
    Add(Add(Scale(m.r0, v.x), Scale(m.r1, v.y)), Scale(m.r2, v.z))
  }

  /** Matrix times column vector, numpy's `np.dot(M, v)` for a column `v`. */
  function MatVec(m: Matrix3, v: Vec3): Vec3
  {
    Vec3(Dot(m.r0, v), Dot(m.r1, v), Dot(m.r2, v))
  }

  /** The row `v` rotated about `ax`: the product `np.dot(v, M)` with the
      rotation matrix `M`, coordinate by coordinate. */
  function Rotate(v: Vec3, ax: Axis, rot: Rotation): Vec3
  {
    match ax
    case X => RotateAboutX(v, rot)
    case Y => RotateAboutY(v, rot)
    case Z => RotateAboutZ(v, rot)
  }

  function RotateAboutX(v: Vec3, rot: Rotation): Vec3
  {
    Vec3(v.x, v.y * rot.c + v.z * rot.s, -v.y * rot.s + v.z * rot.c)
  }

  function RotateAboutY(v: Vec3, rot: Rotation): Vec3
  {
    Vec3(v.x * rot.c + v.z * rot.s, v.y, -v.x * rot.s + v.z * rot.c)
  }

  function RotateAboutZ(v: Vec3, rot: Rotation): Vec3
  {
    Vec3(v.x * rot.c + v.y * rot.s, -v.x * rot.s + v.y * rot.c, v.z)
  }

  /** The matrix product with `rotate_x`, `rotate_y` or `rotate_z` is the
      written-out rotation. */
  lemma VecMatRotate(v: Vec3, ax: Axis, rot: Rotation)
    ensures VecMat(v, RotationMatrix(ax, rot)) == Rotate(v, ax, rot)
  {
    match ax
    case X => VecMatRotateX(v, rot);
    case Y => VecMatRotateY(v, rot);
    case Z => VecMatRotateZ(v, rot);
  }

  lemma VecMatRotateX(v: Vec3, rot: Rotation)
    ensures VecMat(v, RotateX(rot)) == RotateAboutX(v, rot)
  {
  }

  lemma VecMatRotateY(v: Vec3, rot: Rotation)
    ensures VecMat(v, RotateY(rot)) == RotateAboutY(v, rot)
  {
  }

  lemma VecMatRotateZ(v: Vec3, rot: Rotation)
    ensures VecMat(v, RotateZ(rot)) == RotateAboutZ(v, rot)
  {
  }

  /** Every row rotated about `ax`, first row first. */
  function RotateAll(rows: seq<Vec3>, ax: Axis, rot: Rotation): (r: seq<Vec3>)
    ensures |r| == |rows|
    decreases |rows|
  {
    if rows == [] then []
    else RotateAll(rows[..|rows| - 1], ax, rot) + [Rotate(rows[|rows| - 1], ax, rot)]
  }

  /** Row `i` of the result is row `i` rotated. */
  lemma {:induction false} RotateAllAt(rows: seq<Vec3>, ax: Axis, rot: Rotation, i: nat)
    requires i < |rows|
    ensures RotateAll(rows, ax, rot)[i] == Rotate(rows[i], ax, rot)
    decreases |rows|
  {
    if i < |rows| - 1 {
      RotateAllAt(rows[..|rows| - 1], ax, rot, i);
    }
  }

  /** A planar rotation keeps the squared length of a pair of coordinates. */
  lemma PlaneRotationKeepsLength(a: real, b: real, c: real, s: real, wa: real, wb: real)
    requires c * c + s * s == 1.0
    requires wa == a * c + b * s && wb == -a * s + b * c
    ensures wa * wa + wb * wb == a * a + b * b
  {
    calc {
      wa * wa + wb * wb;
      (a * c + b * s) * (a * c + b * s) + (-a * s + b * c) * (-a * s + b * c);
      a * a * (c * c + s * s) + b * b * (c * c + s * s);
    }
  }

  /** Rotating a row about an axis keeps its length and its coordinate
      along that axis. */
  lemma RotationKeepsLengthAndAxis(v: Vec3, ax: Axis, rot: Rotation)
    requires IsRotation(rot)
    ensures SqNorm(Rotate(v, ax, rot)) == SqNorm(v)
    ensures ax == X ==> Rotate(v, ax, rot).x == v.x
    ensures ax == Y ==> Rotate(v, ax, rot).y == v.y
    ensures ax == Z ==> Rotate(v, ax, rot).z == v.z
  {
    match ax
    case X =>
      var w := RotateAboutX(v, rot);
      PlaneRotationKeepsLength(v.y, v.z, rot.c, rot.s, w.y, w.z);
      LengthFromPlane(v, w);
    case Y =>
      var w := RotateAboutY(v, rot);
      PlaneRotationKeepsLength(v.x, v.z, rot.c, rot.s, w.x, w.z);
      LengthFromPlane(Vec3(v.y, v.x, v.z), Vec3(w.y, w.x, w.z));
    case Z =>
      var w := RotateAboutZ(v, rot);
      PlaneRotationKeepsLength(v.x, v.y, rot.c, rot.s, w.x, w.y);
      LengthFromPlane(Vec3(v.z, v.x, v.y), Vec3(w.z, w.x, w.y));
  }

  /** Two rows with the same first coordinate and the same squared length
      of the other two have the same squared length. */
  lemma LengthFromPlane(v: Vec3, w: Vec3)
    requires w.x == v.x && w.y * w.y + w.z * w.z == v.y * v.y + v.z * v.z
    ensures w.x * w.x + w.y * w.y + w.z * w.z == v.x * v.x + v.y * v.y + v.z * v.z
  {
  }

  /** The difference of two rotated pairs of coordinates is the rotated
      difference. */
  lemma PlaneLinear(a: real, b: real, a2: real, b2: real, c: real, s: real)
    ensures (a * c + b * s) - (a2 * c + b2 * s) == (a - a2) * c + (b - b2) * s
    ensures (-a * s + b * c) - (-a2 * s + b2 * c) == -(a - a2) * s + (b - b2) * c
  {
  }

  /** Rotating commutes with taking differences. */
  lemma RotateLinear(a: Vec3, b: Vec3, ax: Axis, rot: Rotation)
    ensures Sub(Rotate(a, ax, rot), Rotate(b, ax, rot)) == Rotate(Sub(a, b), ax, rot)
  {
    match ax
    case X => RotateLinearX(a, b, rot);
    case Y => RotateLinearY(a, b, rot);
    case Z => RotateLinearZ(a, b, rot);
  }

  lemma RotateLinearX(a: Vec3, b: Vec3, rot: Rotation)
    ensures Sub(RotateAboutX(a, rot), RotateAboutX(b, rot)) == RotateAboutX(Sub(a, b), rot)
  {
    PlaneLinear(a.y, a.z, b.y, b.z, rot.c, rot.s);
  }

  lemma RotateLinearY(a: Vec3, b: Vec3, rot: Rotation)
    ensures Sub(RotateAboutY(a, rot), RotateAboutY(b, rot)) == RotateAboutY(Sub(a, b), rot)
  {
    PlaneLinear(a.x, a.z, b.x, b.z, rot.c, rot.s);
  }

  lemma RotateLinearZ(a: Vec3, b: Vec3, rot: Rotation)
    ensures Sub(RotateAboutZ(a, rot), RotateAboutZ(b, rot)) == RotateAboutZ(Sub(a, b), rot)
  {
    PlaneLinear(a.x, a.y, b.x, b.y, rot.c, rot.s);
  }

  /** A rotation about an axis keeps the squared distance between any two
      rows, and the length of each row. */
  lemma RotateAllKeepsDistances(rows: seq<Vec3>, ax: Axis, rot: Rotation, i: nat, j: nat)
    requires IsRotation(rot)
    requires i < |rows| && j < |rows|
    ensures var r := RotateAll(rows, ax, rot);
      SqDist(r[i], r[j]) == SqDist(rows[i], rows[j]) && SqNorm(r[i]) == SqNorm(rows[i])
  {
    RotateAllAt(rows, ax, rot, i);
    RotateAllAt(rows, ax, rot, j);
    RotateLinear(rows[i], rows[j], ax, rot);
    RotationKeepsLengthAndAxis(Sub(rows[i], rows[j]), ax, rot);
    RotationKeepsLengthAndAxis(rows[i], ax, rot);
  }

  /** Replace every row of `fragment` by its product with the rotation
      matrix about `ax`, row by row. */
  method CalculateRotation(fragment: array<Vec3>, rot: Rotation, ax: Axis)
    modifies fragment
    ensures fragment[..] == RotateAll(old(fragment[..]), ax, rot)
  {
    var m := RotationMatrix(ax, rot);
    var i := 0;
    while i < fragment.Length
      invariant 0 <= i <= fragment.Length
      invariant forall k :: 0 <= k < i ==> fragment[k] == Rotate(old(fragment[k]), ax, rot)
      invariant forall k :: i <= k < fragment.Length ==> fragment[k] == old(fragment[k])
    {
      VecMatRotate(fragment[i], ax, rot);
      fragment[i] := VecMat(fragment[i], m);
      i := i + 1;
    }
    forall k | 0 <= k < fragment.Length
      ensures fragment[k] == RotateAll(old(fragment[..]), ax, rot)[k]
    {
      RotateAllAt(old(fragment[..]), ax, rot, k);
    }
  }

  /** The coordinate the rotation about `ax` compares with the norm of the
      projection (y for the x axis, x otherwise), and the one it cancels. */
  function Along(ax: Axis, p: Vec3): real { if ax == X then p.y else p.x }
  function Across(ax: Axis, p: Vec3): real { if ax == Z then p.y else p.z }

  function Abs(v: real): real { if v < 0.0 then -v else v }

  /** The rotation about `ax` determined by `atom`.  The source takes the
      angle `arccos(u / norm)` between the projection of `atom` and the
      reference axis, signs it by `FindRotationDirection`, and builds the
      matrix from its cosine and sine; those are `u / norm` and
      `dir * |v| / norm`, with `u` the compared and `v` the cancelled
      coordinate of the projection.  A projection shorter than 1e-10 gives
      angle 0. */
  function AngleRotation(ax: Axis, atom: Vec3, sqrt: real -> real): Rotation
  {
    var p := FindCoordVector(ax, atom);
    var norm := sqrt(SqNorm(p));
    if norm < 0.0000000001 then Rotation(1.0, 0.0)
    else Rotation(Along(ax, p) / norm, FindRotationDirection(ax, atom) as real * Abs(Across(ax, p)) / norm)
  }

  /** The rotation is a rotation; outside the tiny-norm case its cosine and
      sine times the norm are the compared and cancelled coordinates. */
  lemma AngleRotationSpec(ax: Axis, atom: Vec3, sqrt: real -> real)
    requires IsSqrt(sqrt)
    ensures IsRotation(AngleRotation(ax, atom, sqrt))
    ensures var rot := AngleRotation(ax, atom, sqrt);
      var norm := sqrt(SqNorm(FindCoordVector(ax, atom)));
      if norm < 0.0000000001 then rot == Rotation(1.0, 0.0)
      else rot.c * norm == Along(ax, atom) && rot.s * norm == Across(ax, atom)
  {
    var norm := sqrt(SqNorm(FindCoordVector(ax, atom)));
    if 0.0000000001 <= norm {
      ProjectionRoot(ax, atom, sqrt);
      ProjectionNorm(ax, atom);
      DirectionSign(ax, atom);
      QuotientUnit(Along(ax, atom), Across(ax, atom), norm);
    }
  }

  /** The direction times the magnitude of the cancelled coordinate gives
      back that coordinate. */
  lemma DirectionSign(ax: Axis, atom: Vec3)
    ensures FindRotationDirection(ax, atom) as real * Abs(Across(ax, atom)) == Across(ax, atom)
  {
  }

  /** The projection's squared norm splits into its two surviving coordinates. */
  lemma ProjectionNorm(ax: Axis, atom: Vec3)
    ensures var p := FindCoordVector(ax, atom);
      SqNorm(p) == Along(ax, atom) * Along(ax, atom) + Across(ax, atom) * Across(ax, atom)
      && Along(ax, p) == Along(ax, atom) && Across(ax, p) == Across(ax, atom)
  {
    match ax
    case X =>
    case Y =>
    case Z =>
  }

  /** The quotients of two coordinates by their norm are a cosine and a
      sine. */
  lemma QuotientUnit(u: real, v: real, n: real)
    requires 0.0 < n && n * n == u * u + v * v
    ensures (u / n) * n == u && (v / n) * n == v
    ensures (u / n) * (u / n) + (v / n) * (v / n) == 1.0
  {
    DivMul(u, n);
    DivMul(v, n);
    UnitFromNorm(u, v, n, u / n, v / n);
  }

  /** `(u / n, v / n)` with `n * n == u * u + v * v` is a rotation. */
  lemma UnitFromNorm(u: real, v: real, n: real, c: real, s: real)
    requires 0.0 < n && n * n == u * u + v * v && c * n == u && s * n == v
    ensures c * c + s * s == 1.0
  {
    SquareOfProduct(c, n, u);
    SquareOfProduct(s, n, v);
    calc {
      ((c * c + s * s) * n) * n;
      (c * c + s * s) * (n * n);
      c * c * (n * n) + s * s * (n * n);
      u * u + v * v;
      n * n;
      (1.0 * n) * n;
    }
    CancelNonZero((c * c + s * s) * n, 1.0 * n, n);
    CancelNonZero(c * c + s * s, 1.0, n);
  }

  /** The planar step of a canonicalising rotation: rotating `(u, v)` by
      `(u / n, v / n)` gives `(n, 0)`. */
  lemma PlaneAlign(u: real, v: real, n: real, c: real, s: real)
    requires 0.0 < n && n * n == u * u + v * v && c * n == u && s * n == v
    ensures u * c + v * s == n
    ensures -u * s + v * c == 0.0
  {
    calc {
      (u * c + v * s) * n;
      u * (c * n) + v * (s * n);
      u * u + v * v;
      n * n;
    }
    CancelNonZero(u * c + v * s, n, n);
    calc {
      (-u * s + v * c) * n;
      -u * (s * n) + v * (c * n);
      -u * v + v * u;
      0.0 * n;
    }
    CancelNonZero(-u * s + v * c, 0.0, n);
  }

  /** The rotation about `ax` acts on the (compared, cancelled) pair of
      coordinates as a planar rotation. */
  lemma RotatedPlane(ax: Axis, v: Vec3, rot: Rotation)
    ensures var w := Rotate(v, ax, rot);
      Along(ax, w) == Along(ax, v) * rot.c + Across(ax, v) * rot.s &&
      Across(ax, w) == -Along(ax, v) * rot.s + Across(ax, v) * rot.c
  {
    match ax
    case X =>
    case Y =>
    case Z =>
  }

  /** The root of the projection's squared norm is non-negative and squares
      back to the sum of the squares of the two surviving coordinates. */
  lemma ProjectionRoot(ax: Axis, atom: Vec3, sqrt: real -> real)
    requires IsSqrt(sqrt)
    ensures var norm := sqrt(SqNorm(FindCoordVector(ax, atom)));
      0.0 <= norm && norm * norm == Along(ax, atom) * Along(ax, atom) + Across(ax, atom) * Across(ax, atom)
  {
    var p := FindCoordVector(ax, atom);
    SqNormNonNegative(p);
    ProjectionNorm(ax, atom);
    SqrtSquared(sqrt, SqNorm(p));
  }

  /** Rotating a row by the rotation its own projection determines puts it
      on the reference axis: the compared coordinate becomes the projection's
      norm and the cancelled one becomes 0 (unless the projection was tiny
      but not zero, in which case nothing moves). */
  lemma AngleRotationAligns(ax: Axis, atom: Vec3, sqrt: real -> real)
    requires IsSqrt(sqrt)
    ensures var norm := sqrt(SqNorm(FindCoordVector(ax, atom)));
      var w := Rotate(atom, ax, AngleRotation(ax, atom, sqrt));
      (0.0000000001 <= norm || norm == 0.0) ==> Along(ax, w) == norm && Across(ax, w) == 0.0
  {
    var norm := sqrt(SqNorm(FindCoordVector(ax, atom)));
    if norm == 0.0 || 0.0000000001 <= norm {
      AngleRotationSpec(ax, atom, sqrt);
      ProjectionRoot(ax, atom, sqrt);
      RotationAligns(ax, atom, AngleRotation(ax, atom, sqrt), norm);
    }
  }

  /** A rotation whose cosine and sine are the compared and cancelled
      coordinates of `atom` over their norm moves `atom` onto the reference
      axis; when both coordinates are zero any rotation leaves them zero. */
  lemma RotationAligns(ax: Axis, atom: Vec3, rot: Rotation, norm: real)
    requires 0.0 <= norm && norm * norm == Along(ax, atom) * Along(ax, atom) + Across(ax, atom) * Across(ax, atom)
    requires norm == 0.0 || (rot.c * norm == Along(ax, atom) && rot.s * norm == Across(ax, atom))
    ensures var w := Rotate(atom, ax, rot);
      Along(ax, w) == norm && Across(ax, w) == 0.0
  {
    var w := Rotate(atom, ax, rot);
    RotatedPlane(ax, atom, rot);
    PlaneStep(Along(ax, atom), Across(ax, atom), norm, rot.c, rot.s, Along(ax, w), Across(ax, w));
  }

  /** The planar step: `(u, v)` rotated by `(u / n, v / n)` is `(n, 0)`,
      and `(0, 0)` stays put whatever the rotation. */
  lemma PlaneStep(u: real, v: real, n: real, c: real, s: real, wu: real, wv: real)
    requires wu == u * c + v * s && wv == -u * s + v * c
    requires 0.0 <= n && n * n == u * u + v * v
    requires n == 0.0 || (c * n == u && s * n == v)
    ensures wu == n && wv == 0.0
  {
    if n == 0.0 {
      AlignsZero(u, v, c, s);
    } else {
      PlaneAlign(u, v, n, c, s);
    }
  }

  /** Two coordinates whose squares sum to zero are both zero. */
  lemma AlignsZero(u: real, v: real, c: real, s: real)
    requires u * u + v * v == 0.0
    ensures u * c + v * s == 0.0 && -u * s + v * c == 0.0
  {
    SquareNonNegative(u);
    SquareNonNegative(v);
  }

  /** One rotation of `perform_rotations`: about `ax`, by the angle the
      row `atom` of the current fragment determines. */
  datatype Step = Step(ax: Axis, atom: nat)

  /** A step applied to every row (`find_coord_vector`, `find_angles`,
      `find_rotation_direction`, then `calculate_rotation`). */
  function RotateStep(rows: seq<Vec3>, st: Step, sqrt: real -> real): (r: seq<Vec3>)
    requires st.atom < |rows|
    ensures |r| == |rows|
  {
    RotateAll(rows, st.ax, AngleRotation(st.ax, rows[st.atom], sqrt))
  }

  /** Steps applied one after another, each to the result of the previous. */
  function RotateSteps(rows: seq<Vec3>, steps: seq<Step>, sqrt: real -> real): (r: seq<Vec3>)
    requires forall k :: 0 <= k < |steps| ==> steps[k].atom < |rows|
    ensures |r| == |rows|
    decreases |steps|
  {
    if steps == [] then rows
    else RotateSteps(RotateStep(rows, steps[0], sqrt), steps[1..], sqrt)
  }

  /** The steps of `perform_rotations`: about z and then y by atom
      `labels[0]`, then about x by atom `labels[1]`. */
  function RotationSteps(first: nat, second: nat): seq<Step>
  {
    [Step(Z, first), Step(Y, first), Step(X, second)]
  }

  /** The three canonicalising rotations of `perform_rotations`. */
  function PerformRotationsSpec(fragment: seq<Vec3>, first: nat, second: nat, sqrt: real -> real): (r: seq<Vec3>)
    requires first < |fragment| && second < |fragment|
    ensures |r| == |fragment|
  {
    RotateSteps(fragment, RotationSteps(first, second), sqrt)
  }

  /** `perform_rotations` written out as its three steps. */
  lemma PerformRotationsSteps(fragment: seq<Vec3>, first: nat, second: nat, sqrt: real -> real)
    requires first < |fragment| && second < |fragment|
    ensures PerformRotationsSpec(fragment, first, second, sqrt) ==
      RotateStep(RotateStep(RotateStep(fragment, Step(Z, first), sqrt), Step(Y, first), sqrt), Step(X, second), sqrt)
  {
    var steps := RotationSteps(first, second);
    var r1 := RotateStep(fragment, steps[0], sqrt);
    var r2 := RotateStep(r1, steps[1], sqrt);
    var r3 := RotateStep(r2, steps[2], sqrt);
    assert steps[1..][0] == steps[1] && steps[1..][1..][0] == steps[2];
    assert steps[1..][1..][1..] == [];
    calc {
      RotateSteps(fragment, steps, sqrt);
      RotateSteps(r1, steps[1..], sqrt);
      RotateSteps(r2, steps[1..][1..], sqrt);
      RotateSteps(r3, steps[1..][1..][1..], sqrt);
      r3;
    }
  }

  /** The projection that a step uses is either exactly zero or at least
      1e-10 long, so that the step is decided by exact arithmetic. */
  ghost predicate Decisive(ax: Axis, atom: Vec3, sqrt: real -> real)
  {
    var n := sqrt(SqNorm(FindCoordVector(ax, atom)));
    n == 0.0 || 0.0000000001 <= n
  }

  /** The three projections `perform_rotations` uses are all decisive. */
  ghost predicate DecisiveRotations(fragment: seq<Vec3>, first: nat, second: nat, sqrt: real -> real)
    requires first < |fragment| && second < |fragment|
  {
    var r1 := RotateStep(fragment, Step(Z, first), sqrt);
    var r2 := RotateStep(r1, Step(Y, first), sqrt);
    Decisive(Z, fragment[first], sqrt) && Decisive(Y, r1[first], sqrt) && Decisive(X, r2[second], sqrt)
  }

  /** A decisive step puts its own atom on the reference axis: the compared
      coordinate becomes non-negative and the cancelled one zero. */
  lemma StepAligns(rows: seq<Vec3>, st: Step, sqrt: real -> real)
    requires IsSqrt(sqrt)
    requires st.atom < |rows| && Decisive(st.ax, rows[st.atom], sqrt)
    ensures var w := RotateStep(rows, st, sqrt)[st.atom];
      0.0 <= Along(st.ax, w) && Across(st.ax, w) == 0.0
  {
    RotateAllAt(rows, st.ax, AngleRotation(st.ax, rows[st.atom], sqrt), st.atom);
    AngleRotationAligns(st.ax, rows[st.atom], sqrt);
    ProjectionRoot(st.ax, rows[st.atom], sqrt);
  }

  /** A step keeps the coordinate of every row along its axis. */
  lemma StepKeepsAxis(rows: seq<Vec3>, st: Step, sqrt: real -> real, i: nat)
    requires st.atom < |rows| && i < |rows|
    ensures var w := RotateStep(rows, st, sqrt)[i];
      match st.ax
      case X => w.x == rows[i].x
      case Y => w.y == rows[i].y
      case Z => w.z == rows[i].z
  {
    RotateAllAt(rows, st.ax, AngleRotation(st.ax, rows[st.atom], sqrt), i);
  }

  /** A row on the x axis stays where it is under a rotation about x. */
  lemma OnXAxisFixed(v: Vec3, rot: Rotation)
    requires v.y == 0.0 && v.z == 0.0
    ensures RotateAboutX(v, rot) == v
  {
  }

  /** The docstring's promise: after the three rotations the first atom lies
      on the non-negative x axis and the second in the xy plane, on the
      non-negative y side. */
  lemma PerformRotationsCanonical(fragment: seq<Vec3>, first: nat, second: nat, sqrt: real -> real)
    requires IsSqrt(sqrt)
    requires first < |fragment| && second < |fragment|
    requires DecisiveRotations(fragment, first, second, sqrt)
    ensures var r := PerformRotationsSpec(fragment, first, second, sqrt);
      r[first].y == 0.0 && r[first].z == 0.0 && 0.0 <= r[first].x &&
      r[second].z == 0.0 && 0.0 <= r[second].y
  {
    PerformRotationsSteps(fragment, first, second, sqrt);
    var r1 := RotateStep(fragment, Step(Z, first), sqrt);
    var r2 := RotateStep(r1, Step(Y, first), sqrt);
    // about z: the first atom gets y = 0
    StepAligns(fragment, Step(Z, first), sqrt);
    // about y: it keeps y = 0 and gets z = 0 and x >= 0
    StepAligns(r1, Step(Y, first), sqrt);
    StepKeepsAxis(r1, Step(Y, first), sqrt, first);
    // about x: it stays put; the second atom gets z = 0 and y >= 0
    OnXAxisFixed(r2[first], AngleRotation(X, r2[second], sqrt));
    RotateAllAt(r2, X, AngleRotation(X, r2[second], sqrt), first);
    StepAligns(r2, Step(X, second), sqrt);
  }

  /** A step keeps every pairwise distance and every row's length. */
  lemma RotateStepKeepsDistances(rows: seq<Vec3>, st: Step, sqrt: real -> real, i: nat, j: nat)
    requires IsSqrt(sqrt)
    requires st.atom < |rows| && i < |rows| && j < |rows|
    ensures var r := RotateStep(rows, st, sqrt);
      SqDist(r[i], r[j]) == SqDist(rows[i], rows[j]) && SqNorm(r[i]) == SqNorm(rows[i])
  {
    AngleRotationSpec(st.ax, rows[st.atom], sqrt);
    RotateAllKeepsDistances(rows, st.ax, AngleRotation(st.ax, rows[st.atom], sqrt), i, j);
  }

  /** Every pairwise distance, and every row's length, survives the three
      rotations. */
  lemma PerformRotationsKeepsDistances(fragment: seq<Vec3>, first: nat, second: nat, sqrt: real -> real, i: nat, j: nat)
    requires IsSqrt(sqrt)
    requires first < |fragment| && second < |fragment|
    requires i < |fragment| && j < |fragment|
    ensures var r := PerformRotationsSpec(fragment, first, second, sqrt);
      SqDist(r[i], r[j]) == SqDist(fragment[i], fragment[j]) && SqNorm(r[i]) == SqNorm(fragment[i])
  {
    PerformRotationsSteps(fragment, first, second, sqrt);
    var r1 := RotateStep(fragment, Step(Z, first), sqrt);
    var r2 := RotateStep(r1, Step(Y, first), sqrt);
    RotateStepKeepsDistances(fragment, Step(Z, first), sqrt, i, j);
    RotateStepKeepsDistances(r1, Step(Y, first), sqrt, i, j);
    RotateStepKeepsDistances(r2, Step(X, second), sqrt, i, j);
  }

  /** `perform_rotations` on a fragment held in an array, threading it through
      the three in-place rotations. */
  method PerformRotations(fragment: array<Vec3>, first: nat, second: nat, sqrt: real -> real)
    requires first < fragment.Length && second < fragment.Length
    modifies fragment
    ensures fragment[..] == PerformRotationsSpec(old(fragment[..]), first, second, sqrt)
  {
    ghost var f0 := fragment[..];
    CalculateRotation(fragment, AngleRotation(Z, fragment[first], sqrt), Z);
    CalculateRotation(fragment, AngleRotation(Y, fragment[first], sqrt), Y);
    CalculateRotation(fragment, AngleRotation(X, fragment[second], sqrt), X);
    PerformRotationsSteps(f0, first, second, sqrt);
  }

  /** The first steps the alignment scripts apply to a fragment: the
      center atom to the origin, then the three canonicalising rotations. */
  function TranslateAndRotate(fragment: seq<Vec3>, center: nat, first: nat, second: nat,
                              sqrt: real -> real): (r: seq<Vec3>)
    requires center < |fragment| && first < |fragment| && second < |fragment|
    ensures |r| == |fragment|
  {
    PerformRotationsSpec(PerformTranslation(fragment, center), first, second, sqrt)
  }

  /** After translation and rotation the center atom is at the origin, the
      first atom on the non-negative x axis and the second in the xy plane on
      the non-negative y side. */
  lemma TranslateAndRotateCanonical(fragment: seq<Vec3>, center: nat, first: nat, second: nat,
                                    sqrt: real -> real)
    requires IsSqrt(sqrt)
    requires center < |fragment| && first < |fragment| && second < |fragment|
    requires DecisiveRotations(PerformTranslation(fragment, center), first, second, sqrt)
    ensures var r := TranslateAndRotate(fragment, center, first, second, sqrt);
      r[center] == Origin &&
      r[first].y == 0.0 && r[first].z == 0.0 && 0.0 <= r[first].x &&
      r[second].z == 0.0 && 0.0 <= r[second].y
  {
    var t := PerformTranslation(fragment, center);
    PerformRotationsCanonical(t, first, second, sqrt);
    TranslateAndRotateCenter(fragment, center, first, second, sqrt);
  }

  /** The center atom stays at the origin through the rotations. */
  lemma TranslateAndRotateCenter(fragment: seq<Vec3>, center: nat, first: nat, second: nat,
                                 sqrt: real -> real)
    requires IsSqrt(sqrt)
    requires center < |fragment| && first < |fragment| && second < |fragment|
    ensures TranslateAndRotate(fragment, center, first, second, sqrt)[center] == Origin
  {
    var t := PerformTranslation(fragment, center);
    var r := PerformRotationsSpec(t, first, second, sqrt);
    PerformRotationsKeepsDistances(t, first, second, sqrt, center, center);
    assert SqNorm(r[center]) == 0.0;
    SqNormNonNegative(r[center]);
  }

  /** Translation and rotation keep every pairwise distance. */
  lemma TranslateAndRotateKeepsDistances(fragment: seq<Vec3>, center: nat, first: nat, second: nat,
                                         sqrt: real -> real, i: nat, j: nat)
    requires IsSqrt(sqrt)
    requires center < |fragment| && first < |fragment| && second < |fragment|
    requires i < |fragment| && j < |fragment|
    ensures var r := TranslateAndRotate(fragment, center, first, second, sqrt);
      SqDist(r[i], r[j]) == SqDist(fragment[i], fragment[j])
  {
    var t := PerformTranslation(fragment, center);
    PerformRotationsKeepsDistances(t, first, second, sqrt, i, j);
    PerformTranslationKeepsDifferences(fragment, center, i, j);
  }

  /** Squared coordinate difference of each pair of rows. */
  function SqErrs(a: seq<Vec3>, b: seq<Vec3>): (r: seq<real>)
    requires |a| == |b|
    ensures |r| == |a|
    decreases |a|
  {
    if a == [] then []
    else SqErrs(a[..|a| - 1], b[..|b| - 1]) + [SqDist(a[|a| - 1], b[|b| - 1])]
  }

  lemma {:induction false} SqErrsAt(a: seq<Vec3>, b: seq<Vec3>, i: nat)
    requires |a| == |b| && i < |a|
    ensures SqErrs(a, b)[i] == SqDist(a[i], b[i])
    decreases |a|
  {
    if i < |a| - 1 {
      SqErrsAt(a[..|a| - 1], b[..|b| - 1], i);
    }
  }

  /** Sum of the squared coordinate differences of two blocks of rows. */
  function SumSqErr(a: seq<Vec3>, b: seq<Vec3>): real
    requires |a| == |b|
  {
    Sum(SqErrs(a, b))
  }

  /** The squared error is never negative and is zero exactly when the two
      blocks agree row for row. */
  lemma SumSqErrZeroIff(a: seq<Vec3>, b: seq<Vec3>)
    requires |a| == |b|
    ensures 0.0 <= SumSqErr(a, b)
    ensures SumSqErr(a, b) == 0.0 <==> a == b
  {
    SqErrsZeroIff(a, b);
    SumZeroIffRows(SqErrs(a, b), a, b);
  }

  /** A sum of per-row non-negative errors that vanish exactly on agreeing
      rows vanishes exactly when the blocks agree. */
  lemma SumZeroIffRows(e: seq<real>, a: seq<Vec3>, b: seq<Vec3>)
    requires |e| == |a| == |b|
    requires forall i :: 0 <= i < |a| ==> 0.0 <= e[i] && (e[i] == 0.0 <==> a[i] == b[i])
    ensures 0.0 <= Sum(e)
    ensures Sum(e) == 0.0 <==> a == b
  {
    SumNonNegative(e);
    SumZeroIff(e);
    if Sum(e) == 0.0 {
      assert forall i :: 0 <= i < |a| ==> a[i] == b[i];
    }
  }

  /** Each squared error is non-negative, and zero exactly where the rows agree. */
  lemma SqErrsZeroIff(a: seq<Vec3>, b: seq<Vec3>)
    requires |a| == |b|
    ensures forall i :: 0 <= i < |a| ==> 0.0 <= SqErrs(a, b)[i]
    ensures forall i :: 0 <= i < |a| ==> (SqErrs(a, b)[i] == 0.0 <==> a[i] == b[i])
  {
    forall i | 0 <= i < |a|
      ensures 0.0 <= SqErrs(a, b)[i] && (SqErrs(a, b)[i] == 0.0 <==> a[i] == b[i])
    {
      SqErrsAt(a, b, i);
      SqDistZeroIff(a[i], b[i]);
    }
  }

  /** Root of the mean squared error, with `n` the row count the caller passes. */
  function CalcRmse(a: seq<Vec3>, b: seq<Vec3>, n: nat, sqrt: real -> real): real
    requires |a| == |b| && 0 < n
  {
    sqrt(SumSqErr(a, b) / n as real)
  }

  /** The RMSE is non-negative and zero exactly when the two blocks agree. */
  lemma CalcRmseZeroIff(a: seq<Vec3>, b: seq<Vec3>, n: nat, sqrt: real -> real)
    requires IsSqrt(sqrt)
    requires |a| == |b| && 0 < n
    ensures var r := CalcRmse(a, b, n, sqrt);
      0.0 <= r && (r == 0.0 <==> a == b)
  {
    SumSqErrZeroIff(a, b);
    var m := SumSqErr(a, b) / n as real;
    QuotientSign(SumSqErr(a, b), n as real);
    SqrtZero(sqrt, m);
  }

  /** Each row minus the centroid `c` (`A - np.tile(centroid_A, (n, 1))`). */
  function Centered(rows: seq<Vec3>, c: Vec3): (r: seq<Vec3>)
    ensures |r| == |rows|
    decreases |rows|
  {
    if rows == [] then [] else Centered(rows[..|rows| - 1], c) + [Sub(rows[|rows| - 1], c)]
  }

  lemma {:induction false} CenteredAt(rows: seq<Vec3>, c: Vec3, i: nat)
    requires i < |rows|
    ensures Centered(rows, c)[i] == Sub(rows[i], c)
    decreases |rows|
  {
    if i < |rows| - 1 {
      CenteredAt(rows[..|rows| - 1], c, i);
    }
  }

  /** Each row `v` mapped to `m v` (`np.dot(R, B2.T)`, read row by row). */
  function Transform(rows: seq<Vec3>, m: Matrix3): (r: seq<Vec3>)
    ensures |r| == |rows|
    decreases |rows|
  {
    if rows == [] then [] else Transform(rows[..|rows| - 1], m) + [MatVec(m, rows[|rows| - 1])]
  }

  lemma {:induction false} TransformAt(rows: seq<Vec3>, m: Matrix3, i: nat)
    requires i < |rows|
    ensures Transform(rows, m)[i] == MatVec(m, rows[i])
    decreases |rows|
  {
    if i < |rows| - 1 {
      TransformAt(rows[..|rows| - 1], m, i);
    }
  }

  /** Each row `v` mapped to `m v + t`. */
  function Affine(rows: seq<Vec3>, m: Matrix3, t: Vec3): (r: seq<Vec3>)
    ensures |r| == |rows|
    decreases |rows|
  {
    if rows == [] then []
    else Affine(rows[..|rows| - 1], m, t) + [Add(MatVec(m, rows[|rows| - 1]), t)]
  }

  lemma {:induction false} AffineAt(rows: seq<Vec3>, m: Matrix3, t: Vec3, i: nat)
    requires i < |rows|
    ensures Affine(rows, m, t)[i] == Add(MatVec(m, rows[i]), t)
    decreases |rows|
  {
    if i < |rows| - 1 {
      AffineAt(rows[..|rows| - 1], m, t, i);
    }
  }

  /** Moving every row is transforming every row and then translating it. */
  lemma AffineSplits(rows: seq<Vec3>, m: Matrix3, t: Vec3)
    ensures Affine(rows, m, t) == TranslateAll(Transform(rows, m), t)
  {
    forall i | 0 <= i < |rows|
      ensures Affine(rows, m, t)[i] == TranslateAll(Transform(rows, m), t)[i]
    {
      AffineAt(rows, m, t, i);
      TransformAt(rows, m, i);
      TranslateAllAt(Transform(rows, m), t, i);
    }
  }

  /** The first `k` moved rows are the moved first `k` rows. */
  lemma AffinePrefix(rows: seq<Vec3>, m: Matrix3, t: Vec3, k: nat)
    requires k <= |rows|
    ensures Affine(rows, m, t)[..k] == Affine(rows[..k], m, t)
  {
    forall i | 0 <= i < k
      ensures Affine(rows, m, t)[i] == Affine(rows[..k], m, t)[i]
    {
      AffineAt(rows, m, t, i);
      AffineAt(rows[..k], m, t, i);
    }
  }

  /** `kabsch_align(A, B, B2, n)`: fit a rotation that superimposes the
      centred `B` on the centred `A`, then move every row of `B2` by that
      rotation and by the translation that carries the centroid of `B` onto
      the centroid of `A`.  The fit itself (singular value decomposition and
      the reflection fix) is the parameter `fit`, applied to the centred
      blocks in the order of the covariance matrix `BB^T AA`. */
  function KabschAlign(a: seq<Vec3>, b: seq<Vec3>, b2: seq<Vec3>,
                       fit: (seq<Vec3>, seq<Vec3>) -> Matrix3): (r: seq<Vec3>)
    requires |a| == |b| && 0 < |a|
    ensures |r| == |b2|
  {
    var ca, cb := Mean(a), Mean(b);
    var rot := fit(Centered(b, cb), Centered(a, ca));
    Affine(b2, rot, Sub(ca, MatVec(rot, cb)))
  }

  /** The rotation and translation depend only on `A` and `B`: moving a
      whole fragment and keeping its central rows is moving the central
      rows. */
  lemma KabschPrefix(a: seq<Vec3>, b: seq<Vec3>, b2: seq<Vec3>, fit: (seq<Vec3>, seq<Vec3>) -> Matrix3)
    requires |a| == |b| && 0 < |a|
    requires |b| <= |b2| && b2[..|b|] == b
    ensures KabschAlign(a, b, b2, fit)[..|b|] == KabschAlign(a, b, b, fit)
  {
    var ca, cb := Mean(a), Mean(b);
    var rot := fit(Centered(b, cb), Centered(a, ca));
    AffinePrefix(b2, rot, Sub(ca, MatVec(rot, cb)), |b|);
  }

  /** The Kabsch step carries the centroid of the fitted block onto the
      centroid of the reference. */
  lemma KabschCentroid(a: seq<Vec3>, b: seq<Vec3>, fit: (seq<Vec3>, seq<Vec3>) -> Matrix3)
    requires |a| == |b| && 0 < |a|
    ensures Mean(KabschAlign(a, b, b, fit)) == Mean(a)
  {
    var ca, cb := Mean(a), Mean(b);
    var rot := fit(Centered(b, cb), Centered(a, ca));
    MeanAffine(b, rot, Sub(ca, MatVec(rot, cb)));
  }

  /** The sum of a block of rows splits off its last row. */
  lemma SumRowsSnoc(s: seq<Vec3>)
    requires |s| > 0
    ensures SumRows(s) == Add(SumRows(s[..|s| - 1]), s[|s| - 1])
  {
    var p := s[..|s| - 1];
    assert Xs(s)[..|s| - 1] == Xs(p);
    assert Ys(s)[..|s| - 1] == Ys(p);
    assert Zs(s)[..|s| - 1] == Zs(p);
  }

  lemma MatVecAdd(m: Matrix3, a: Vec3, b: Vec3)
    ensures MatVec(m, Add(a, b)) == Add(MatVec(m, a), MatVec(m, b))
  {
    DotAdd(m.r0, a, b);
    DotAdd(m.r1, a, b);
    DotAdd(m.r2, a, b);
  }

  lemma DotAdd(r: Vec3, a: Vec3, b: Vec3)
    ensures Dot(r, Add(a, b)) == Dot(r, a) + Dot(r, b)
  {
    Distribute(a.x, b.x, r.x);
    Distribute(a.y, b.y, r.y);
    Distribute(a.z, b.z, r.z);
  }

  lemma Distribute(a: real, b: real, k: real)
    ensures k * (a + b) == k * a + k * b
    ensures (a + b) * k == a * k + b * k
  {
  }

  lemma MatVecScale(m: Matrix3, a: Vec3, k: real)
    ensures MatVec(m, Scale(a, k)) == Scale(MatVec(m, a), k)
  {
    DotScale(m.r0, a, k);
    DotScale(m.r1, a, k);
    DotScale(m.r2, a, k);
  }

  lemma DotScale(r: Vec3, a: Vec3, k: real)
    ensures Dot(r, Scale(a, k)) == Dot(r, a) * k
  {
    calc {
      Dot(r, Scale(a, k));
      r.x * (a.x * k) + r.y * (a.y * k) + r.z * (a.z * k);
      (r.x * a.x) * k + (r.y * a.y) * k + (r.z * a.z) * k;
      { Distribute(r.x * a.x, r.y * a.y, k); Distribute(r.x * a.x + r.y * a.y, r.z * a.z, k); }
      (r.x * a.x + r.y * a.y + r.z * a.z) * k;
    }
  }

  /** Summing the transformed rows is transforming the sum. */
  lemma {:induction false} SumRowsTransform(rows: seq<Vec3>, m: Matrix3)
    ensures SumRows(Transform(rows, m)) == MatVec(m, SumRows(rows))
    decreases |rows|
  {
    var r := Transform(rows, m);
    if rows == [] {
      assert SumRows(r) == Origin;
      assert SumRows(rows) == Origin;
      MatVecOrigin(m);
    } else {
      var n := |rows|;
      var p := rows[..n - 1];
      assert r[..n - 1] == Transform(p, m);
      SumRowsSnoc(r);
      SumRowsSnoc(rows);
      SumRowsTransform(p, m);
      MatVecAdd(m, SumRows(p), rows[n - 1]);
    }
  }

  lemma MatVecOrigin(m: Matrix3)
    ensures MatVec(m, Origin) == Origin
  {
  }

  /** Summing the translated rows adds `n` copies of the translation. */
  lemma {:induction false} SumRowsTranslate(rows: seq<Vec3>, t: Vec3)
    ensures SumRows(TranslateAll(rows, t)) == Add(SumRows(rows), Scale(t, |rows| as real))
    decreases |rows|
  {
    var r := TranslateAll(rows, t);
    if rows == [] {
      assert SumRows(r) == Origin;
      assert SumRows(rows) == Origin;
    } else {
      var n := |rows|;
      var p := rows[..n - 1];
      assert r[..n - 1] == TranslateAll(p, t);
      SumRowsSnoc(r);
      SumRowsSnoc(rows);
      SumRowsTranslate(p, t);
      ScaleSucc(t, (n - 1) as real, n as real);
      Regroup(SumRows(p), Scale(t, (n - 1) as real), rows[n - 1], t);
    }
  }

  /** Summing the moved rows is moving the sum, with `n` copies of `t`. */
  lemma SumRowsAffine(rows: seq<Vec3>, m: Matrix3, t: Vec3)
    ensures SumRows(Affine(rows, m, t)) == Add(MatVec(m, SumRows(rows)), Scale(t, |rows| as real))
  {
    AffineSplits(rows, m, t);
    SumRowsTranslate(Transform(rows, m), t);
    SumRowsTransform(rows, m);
  }

  /** One more copy of `t`. */
  lemma ScaleSucc(t: Vec3, j: real, j1: real)
    requires j1 == j + 1.0
    ensures Add(Scale(t, j), t) == Scale(t, j1)
  {
    Distribute(j, 1.0, t.x);
    Distribute(j, 1.0, t.y);
    Distribute(j, 1.0, t.z);
  }

  /** Regrouping a sum of four vectors. */
  lemma Regroup(a: Vec3, b: Vec3, c: Vec3, d: Vec3)
    ensures Add(Add(a, b), Add(c, d)) == Add(Add(a, c), Add(b, d))
  {
  }

  /** Scaling distributes over a sum of two vectors. */
  lemma ScaleAdd(a: Vec3, b: Vec3, k: real)
    ensures Scale(Add(a, b), k) == Add(Scale(a, k), Scale(b, k))
  {
    Distribute(a.x, b.x, k);
    Distribute(a.y, b.y, k);
    Distribute(a.z, b.z, k);
  }

  /** Scaling by `n` and then by `k` with `n * k == 1` changes nothing. */
  lemma ScaleInverse(t: Vec3, n: real, k: real)
    requires n * k == 1.0
    ensures Scale(Scale(t, n), k) == t
  {
    assert t.x * n * k == t.x * (n * k);
    assert t.y * n * k == t.y * (n * k);
    assert t.z * n * k == t.z * (n * k);
  }

  /** The centroid of the moved rows is the moved centroid. */
  lemma MeanAffine(rows: seq<Vec3>, m: Matrix3, t: Vec3)
    requires |rows| > 0
    ensures Mean(Affine(rows, m, t)) == Add(MatVec(m, Mean(rows)), t)
  {
    var n := |rows| as real;
    var k := 1.0 / n;
    DivMul(1.0, n);
    assert n * k == 1.0;
    var moved := SumRows(Affine(rows, m, t));
    SumRowsAffine(rows, m, t);
    ScaleAffineSum(m, SumRows(rows), t, n, k, moved);
  }

  /** Dividing a moved sum of `n` rows by `n`. */
  lemma ScaleAffineSum(m: Matrix3, s: Vec3, t: Vec3, n: real, k: real, moved: Vec3)
    requires n * k == 1.0
    requires moved == Add(MatVec(m, s), Scale(t, n))
    ensures Scale(moved, k) == Add(MatVec(m, Scale(s, k)), t)
  {
    MatVecScale(m, s, k);
    ScaleInverse(t, n, k);
    ScaleAdd(MatVec(m, s), Scale(t, n), k);
  }
}
