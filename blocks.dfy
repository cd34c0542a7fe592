/** Fragments stored one after another in a single coordinate matrix:
    fragment `k` of `n` atoms occupies the `n` rows from `Start(k, n) == k * n` on.
    Also the z-mirroring that the alignment scripts apply to a fragment
    whose mean z is negative. */
module Blocks {
  import opened Reals
  import opened Vectors

  /** The remainder of `q * m + r` by `m` is `r` when `0 <= r < m`. */
  lemma RemainderUnique(i: int, m: int, q: int, r: int)
    requires 0 < m && 0 <= r < m && i == q * m + r
    ensures i / m == q && i % m == r
  {
    var q2, r2 := i / m, i % m;
    assert i == q2 * m + r2 && 0 <= r2 < m;
    assert (q - q2) * m == r2 - r;
    if q > q2 {
      MulAtLeast(q - q2, m);
    } else if q < q2 {
      MulAtLeast(q2 - q, m);
    }
  }

  lemma MulAtLeast(a: int, m: int)
    requires 1 <= a && 0 < m
    ensures m <= a * m
  {
    assert a * m - m == (a - 1) * m;
  }

  /** `a * n <= b * n` when `a <= b`. */
  lemma MulMonotone(a: nat, b: nat, n: nat)
    requires a <= b
    ensures a * n <= b * n
  {
    assert b * n - a * n == (b - a) * n;
  }

  /** `i / k < m` for `i < m * k`. */
  lemma DivLess(i: nat, k: nat, m: nat)
    requires 0 < k && i < m * k
    ensures i / k < m
  {
    if m <= i / k {
      MulMonotone(m, i / k, k);
    }
  }

  /** First row of fragment `k` of `n` rows: `k * n`, counted up fragment
      by fragment (see `StartIsProduct`). */
  function Start(k: nat, n: nat): nat
    decreases k
  {
    if k == 0 then 0 else Start(k - 1, n) + n
  }

  lemma {:induction false} StartIsProduct(k: nat, n: nat)
    ensures Start(k, n) == k * n
    decreases k
  {
    if k > 0 {
      StartIsProduct(k - 1, n);
      assert k * n == (k - 1) * n + n;
    }
  }

  /** Later fragments begin no earlier. */
  lemma {:induction false} StartMonotone(k: nat, i: nat, n: nat)
    requires k <= i
    ensures Start(k, n) <= Start(i, n)
    decreases i
  {
    if k < i {
      StartMonotone(k, i - 1, n);
    }
  }

  /** The rows of fragment `k`. */
  function Block<T>(s: seq<T>, k: nat, n: nat): (r: seq<T>)
    requires Start(k, n) + n <= |s|
    ensures |r| == n
  {
    s[Start(k, n)..Start(k, n) + n]
  }

  /** Consecutive fragments follow each other; blocks before block `i` end
      where it begins; blocks after it begin where it ends. */
  lemma BlockOrder(k: nat, i: nat, n: nat)
    ensures Start(k + 1, n) == Start(k, n) + n
    ensures k < i ==> Start(k, n) + n <= Start(i, n)
    ensures i < k ==> Start(i, n) + n <= Start(k, n)
  {
    if k < i {
      StartMonotone(k + 1, i, n);
    } else if i < k {
      StartMonotone(i + 1, k, n);
    }
  }

  /** Each of the first `count` fragments lies within the first
      `Start(count, n)` rows. */
  lemma BlocksFit(count: nat, n: nat)
    ensures forall k :: 0 <= k < count ==> Start(k, n) + n <= Start(count, n)
  {
    forall k | 0 <= k < count
      ensures Start(k, n) + n <= Start(count, n)
    {
      BlockOrder(k, count, n);
    }
  }

  /** `s` with the rows from `begin` on replaced by `rows`. */
  function Splice<T>(s: seq<T>, begin: nat, rows: seq<T>): (r: seq<T>)
    requires begin + |rows| <= |s|
    ensures |r| == |s|
  {
    s[..begin] + rows + s[begin + |rows|..]
  }

  /** Row by row: inside the replaced range the new rows, elsewhere the old. */
  lemma SpliceAt<T>(s: seq<T>, begin: nat, rows: seq<T>)
    requires begin + |rows| <= |s|
    ensures forall j :: 0 <= j < |s| ==>
      Splice(s, begin, rows)[j] == if begin <= j < begin + |rows| then rows[j - begin] else s[j]
  {
  }

  /** The first `c` rows after replacing the front by `rows` are those of `rows`. */
  lemma SpliceFront<T>(s: seq<T>, rows: seq<T>, c: nat)
    requires c <= |rows| <= |s|
    ensures Splice(s, 0, rows)[..c] == rows[..c]
  {
    SpliceAt(s, 0, rows);
  }

  /** Writing fragment `i` changes no other fragment and reads back as
      written. */
  lemma BlockOfSplice<T>(s: seq<T>, i: nat, n: nat, rows: seq<T>, k: nat)
    requires |rows| == n && Start(i, n) + n <= |s| && Start(k, n) + n <= |s|
    ensures Block(Splice(s, Start(i, n), rows), k, n) == if k == i then rows else Block(s, k, n)
  {
    BlockOrder(k, i, n);
    SpliceAt(s, Start(i, n), rows);
    var t := Splice(s, Start(i, n), rows);
    if k == i {
      assert Block(t, k, n) == rows;
    } else {
      assert Block(t, k, n) == Block(s, k, n);
    }
  }

  /** `d` after a loop that replaced each fragment `k` with `1 <= k < i` by
      `f` of itself: those fragments are mapped, fragment 0 and the rows from
      fragment `i` on are as in `d1`. */
  ghost predicate MappedUpTo<T>(d1: seq<T>, d: seq<T>, i: nat, n: nat, f: seq<T> -> seq<T>)
    requires 1 <= i && Start(i, n) <= |d1|
  {
    BlocksFit(i, n);
    |d| == |d1| && Block(d, 0, n) == Block(d1, 0, n) &&
    (forall k :: 1 <= k < i ==> Block(d, k, n) == f(Block(d1, k, n))) &&
    d[Start(i, n)..] == d1[Start(i, n)..]
  }

  /** Before the loop nothing is mapped. */
  lemma MappedFirst<T>(d1: seq<T>, n: nat, f: seq<T> -> seq<T>)
    requires Start(1, n) <= |d1|
    ensures MappedUpTo(d1, d1, 1, n, f)
  {
    BlockOrder(0, 1, n);
  }

  /** Fragment `i` is still as in `d1` while the loop has not reached it. */
  lemma MappedAhead<T>(d1: seq<T>, d: seq<T>, i: nat, n: nat, f: seq<T> -> seq<T>)
    requires 1 <= i && Start(i, n) + n <= |d1|
    requires MappedUpTo(d1, d, i, n, f)
    ensures Block(d, i, n) == Block(d1, i, n)
  {
    var s := Start(i, n);
    assert Block(d, i, n) == d[s..][..n];
    assert Block(d1, i, n) == d1[s..][..n];
  }

  /** One more loop iteration: writing `f` of fragment `i` over it maps
      fragments `1 .. i`. */
  lemma MappedNext<T>(d1: seq<T>, d: seq<T>, i: nat, n: nat, f: seq<T> -> seq<T>, rows: seq<T>)
    requires 1 <= i && Start(i, n) + n <= |d1|
    requires MappedUpTo(d1, d, i, n, f)
    requires |rows| == n && rows == f(Block(d, i, n))
    ensures Start(i + 1, n) <= |d1| && Start(i, n) + |rows| <= |d|
    ensures MappedUpTo(d1, Splice(d, Start(i, n), rows), i + 1, n, f)
  {
    BlockOrder(i, i + 1, n);
    BlocksFit(i + 1, n);
    MappedAhead(d1, d, i, n, f);
    var d2 := Splice(d, Start(i, n), rows);
    forall k | 0 <= k < i + 1
      ensures Block(d2, k, n) == if k == i then rows else Block(d, k, n)
    {
      BlockOfSplice(d, i, n, rows, k);
    }
    SpliceAt(d, Start(i, n), rows);
    var e := Start(i + 1, n);
    assert d2[e..] == d[e..] by {
      forall j | 0 <= j < |d| - e
        ensures d2[e..][j] == d[e..][j]
      {
      }
    }
    assert d[e..] == d[Start(i, n)..][n..];
    assert d1[e..] == d1[Start(i, n)..][n..];
  }

  /** A per-fragment column after the same loop: `first` for fragment 0,
      then `g` of each fragment `1 .. i-1` as it stood in `d1`. */
  ghost predicate ColumnUpTo<T, U>(col: seq<U>, d1: seq<T>, i: nat, n: nat, first: U, g: seq<T> -> U)
    requires 1 <= i && Start(i, n) <= |d1|
  {
    BlocksFit(i, n);
    i <= |col| && col[0] == first &&
    forall k :: 1 <= k < i ==> col[k] == g(Block(d1, k, n))
  }

  /** One more loop iteration: setting entry `i` to `g` of fragment `i`. */
  lemma ColumnNext<T, U>(col: seq<U>, d1: seq<T>, i: nat, n: nat, first: U, g: seq<T> -> U, v: U)
    requires 1 <= i < |col| && Start(i, n) + n <= |d1|
    requires ColumnUpTo(col, d1, i, n, first, g) && v == g(Block(d1, i, n))
    ensures Start(i + 1, n) <= |d1|
    ensures ColumnUpTo(col[i := v], d1, i + 1, n, first, g)
  {
    BlockOrder(i, i + 1, n);
    BlocksFit(i + 1, n);
  }

  /** `d` is `d0` with fragment 0 replaced by `f0` and each fragment `k`
      with `1 <= k < fragments` replaced by `f` of itself; the rows after the
      last fragment are those of `d0`. */
  ghost predicate BlocksMapped<T>(d0: seq<T>, d: seq<T>, fragments: nat, n: nat, f0: seq<T>, f: seq<T> -> seq<T>)
    requires Start(fragments, n) <= |d0|
  {
    BlocksFit(fragments, n);
    |d| == |d0| && 1 <= fragments &&
    Block(d, 0, n) == f0 &&
    (forall k :: 1 <= k < fragments ==> Block(d, k, n) == f(Block(d0, k, n))) &&
    d[Start(fragments, n)..] == d0[Start(fragments, n)..]
  }

  /** `col` holds `first` for fragment 0 and `g` of each later fragment of `d0`. */
  ghost predicate ColumnOf<T, U>(col: seq<U>, d0: seq<T>, fragments: nat, n: nat, first: U, g: seq<T> -> U)
    requires Start(fragments, n) <= |d0|
  {
    BlocksFit(fragments, n);
    |col| == fragments && 1 <= fragments && col[0] == first &&
    forall k :: 1 <= k < fragments ==> col[k] == g(Block(d0, k, n))
  }

  /** The loop that maps fragments `1 .. fragments-1` after fragment 0 was
      replaced by `f0` leaves the rows `BlocksMapped` describes. */
  lemma MappedOutcome<T>(d0: seq<T>, f0: seq<T>, d: seq<T>, fragments: nat, n: nat, f: seq<T> -> seq<T>)
    requires 1 <= fragments && Start(fragments, n) <= |d0| && |f0| == n
    requires MappedUpTo(Splice(d0, 0, f0), d, fragments, n, f)
    ensures BlocksMapped(d0, d, fragments, n, f0, f)
  {
    BlockOrder(0, fragments, n);
    BlocksFit(fragments, n);
    var d1 := Splice(d0, 0, f0);
    BlockOfSplice(d0, 0, n, f0, 0);
    forall k | 1 <= k < fragments
      ensures Block(d, k, n) == f(Block(d0, k, n))
    {
      BlockOfSplice(d0, 0, n, f0, k);
    }
    SpliceAt(d0, 0, f0);
    var e := Start(fragments, n);
    assert d1[e..] == d0[e..] by {
      forall j | 0 <= j < |d0| - e
        ensures d1[e..][j] == d0[e..][j]
      {
      }
    }
  }

  /** The column the same loop builds is the one `ColumnOf` describes. */
  lemma ColumnOutcome<T, U>(col: seq<U>, d0: seq<T>, f0: seq<T>, fragments: nat, n: nat, first: U, g: seq<T> -> U)
    requires 1 <= fragments && Start(fragments, n) <= |d0| && |f0| == n
    requires |col| == fragments && ColumnUpTo(col, Splice(d0, 0, f0), fragments, n, first, g)
    ensures ColumnOf(col, d0, fragments, n, first, g)
  {
    BlockOrder(0, fragments, n);
    BlocksFit(fragments, n);
    forall k | 1 <= k < fragments
      ensures col[k] == g(Block(d0, k, n))
    {
      BlockOfSplice(d0, 0, n, f0, k);
    }
  }

  /** Replace the rows from `begin` on by `rows`, one row at a time (numpy's
      slice assignment `data[begin:end] = rows`). */
  method WriteBlock<T>(data: array<T>, begin: nat, rows: seq<T>)
    requires begin + |rows| <= data.Length
    modifies data
    ensures data[..] == Splice(old(data[..]), begin, rows)
  {
    var j := 0;
    while j < |rows|
      invariant 0 <= j <= |rows|
      invariant forall m :: 0 <= m < data.Length ==>
        data[m] == if begin <= m < begin + j then rows[m - begin] else old(data[m])
    {
      data[begin + j] := rows[j];
      j := j + 1;
    }
    SpliceAt(old(data[..]), begin, rows);
  }

  /** Every row with its z coordinate negated (`A[:, 2] *= -1`). */
  function MirrorZ(rows: seq<Vec3>): (r: seq<Vec3>)
    ensures |r| == |rows|
    decreases |rows|
  {
    if rows == [] then []
    else
      var last := rows[|rows| - 1];
      MirrorZ(rows[..|rows| - 1]) + [Vec3(last.x, last.y, -last.z)]
  }

  /** Row `i` of the mirrored block is row `i` with its z negated. */
  lemma {:induction false} MirrorZAt(rows: seq<Vec3>, i: nat)
    requires i < |rows|
    ensures MirrorZ(rows)[i] == Vec3(rows[i].x, rows[i].y, -rows[i].z)
    decreases |rows|
  {
    if i < |rows| - 1 {
      MirrorZAt(rows[..|rows| - 1], i);
    }
  }

  /** The mean z of the rows is negative.  Stated on the sum, which has the
      sign of the mean for a non-empty block; for no rows numpy's mean is not
      a number and the comparison is false, as the sum's is. */
  predicate NegativeMeanZ(rows: seq<Vec3>)
  {
    Sum(Zs(rows)) < 0.0
  }

  /** For a non-empty block the predicate is the comparison of the mean. */
  lemma NegativeMeanZIsMean(rows: seq<Vec3>)
    requires |rows| > 0
    ensures NegativeMeanZ(rows) <==> Mean(rows).z < 0.0
  {
    var n := |rows| as real;
    QuotientSign(Sum(Zs(rows)), n);
    QuotientSign(-Sum(Zs(rows)), n);
    assert Mean(rows).z == Sum(Zs(rows)) * (1.0 / n);
  }

  /** Mirroring negates the z sum and keeps x and y. */
  lemma {:induction false} MirrorZSum(rows: seq<Vec3>)
    ensures Sum(Zs(MirrorZ(rows))) == -Sum(Zs(rows))
  {
    var m := MirrorZ(rows);
    forall i | 0 <= i < |rows|
      ensures Zs(m)[i] == Zs(rows)[i] * -1.0
    {
      MirrorZAt(rows, i);
      CoordsAt(rows, i);
      CoordsAt(m, i);
    }
    SumScale(Zs(rows), Zs(m), -1.0);
  }

  /** A fragment as the alignment scripts leave it: mirrored in z when its
      mean z is negative, unchanged otherwise. */
  function MirrorIfNeeded(rows: seq<Vec3>): (r: seq<Vec3>)
    ensures |r| == |rows|
  {
    if NegativeMeanZ(rows) then MirrorZ(rows) else rows
  }

  /** After the step the mean z is no longer negative; x and y are never
      touched; z is negated exactly when the mean was negative; and a second
      application changes nothing. */
  lemma MirrorIfNeededSpec(rows: seq<Vec3>)
    ensures var r := MirrorIfNeeded(rows);
      !NegativeMeanZ(r) && 0.0 <= Sum(Zs(r)) &&
      (forall i :: 0 <= i < |rows| ==> r[i].x == rows[i].x && r[i].y == rows[i].y) &&
      (forall i :: 0 <= i < |rows| ==> r[i].z == if NegativeMeanZ(rows) then -rows[i].z else rows[i].z)
    ensures MirrorIfNeeded(MirrorIfNeeded(rows)) == MirrorIfNeeded(rows)
  {
    MirrorZSum(rows);
    forall i | 0 <= i < |rows| && NegativeMeanZ(rows)
      ensures MirrorIfNeeded(rows)[i] == Vec3(rows[i].x, rows[i].y, -rows[i].z)
    {
      MirrorZAt(rows, i);
    }
  }

  /** Mirroring keeps every pairwise distance. */
  lemma MirrorIfNeededKeepsDistances(rows: seq<Vec3>, i: nat, j: nat)
    requires i < |rows| && j < |rows|
    ensures var r := MirrorIfNeeded(rows);
      SqDist(r[i], r[j]) == SqDist(rows[i], rows[j])
  {
    if NegativeMeanZ(rows) {
      MirrorZAt(rows, i);
      MirrorZAt(rows, j);
      var dz := rows[i].z - rows[j].z;
      assert (-rows[i].z - -rows[j].z) * (-rows[i].z - -rows[j].z) == dz * dz;
    }
  }

  /** The in-place mirroring of a fragment held in an array; reports whether
      it flipped the fragment (the `mirrored` column). */
  method MirrorRows(rows: array<Vec3>) returns (mirrored: bool)
    modifies rows
    ensures mirrored == NegativeMeanZ(old(rows[..]))
    ensures rows[..] == MirrorIfNeeded(old(rows[..]))
  {
    mirrored := NegativeMeanZ(rows[..]);
    if mirrored {
      var i := 0;
      while i < rows.Length
        invariant 0 <= i <= rows.Length
        invariant forall k :: 0 <= k < i ==> rows[k] == Vec3(old(rows[k]).x, old(rows[k]).y, -old(rows[k]).z)
        invariant forall k :: i <= k < rows.Length ==> rows[k] == old(rows[k])
      {
        rows[i] := rows[i].(z := -rows[i].z);
        i := i + 1;
      }
      forall k | 0 <= k < rows.Length
        ensures rows[k] == MirrorZ(old(rows[..]))[k]
      {
        MirrorZAt(old(rows[..]), k);
      }
    }
  }

  /** `s * k` for a Python list: `k` copies of `s` one after another. */
  function Tile<T>(s: seq<T>, k: nat): (r: seq<T>)
    ensures |r| == k * |s|
    decreases k
  {
    if k == 0 then []
    else
      var p := Tile(s, k - 1);
      assert |p| + |s| == k * |s|;
      p + s
  }

  /** Entry `i` of `np.tile(s, k)` is `s[i mod |s|]`. */
  lemma {:induction false} TileAt<T>(s: seq<T>, k: nat, i: nat)
    requires i < k * |s|
    ensures Tile(s, k)[i] == s[i % |s|]
    decreases k
  {
    var p := Tile(s, k - 1);
    assert |p| == (k - 1) * |s|;
    if i < |p| {
      TileAt(s, k - 1, i);
    } else {
      RemainderUnique(i, |s|, k - 1, i - |p|);
    }
  }

  /** `np.repeat(s, k)`: every element `k` times in place. */
  function RepeatEach<T>(s: seq<T>, k: nat): (r: seq<T>)
    ensures |r| == |s| * k
    decreases |s|
  {
    if s == [] then []
    else
      var p := RepeatEach(s[..|s| - 1], k);
      assert |p| + k == |s| * k;
      p + seq(k, _ => s[|s| - 1])
  }

  /** Entry `i` of `np.repeat(s, k)` is `s[i div k]`. */
  lemma {:induction false} RepeatEachAt<T>(s: seq<T>, k: nat, i: nat)
    requires i < |s| * k
    ensures RepeatEach(s, k)[i] == s[i / k]
    decreases |s|
  {
    var n := |s| - 1;
    var p := RepeatEach(s[..n], k);
    assert |p| == n * k == |s| * k - k;
    if i < |p| {
      RepeatEachAt(s[..n], k, i);
      DivLess(i, k, n);
    } else {
      RemainderUnique(i, k, n, i - |p|);
    }
  }

}
