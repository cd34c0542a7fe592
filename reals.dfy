/** Sums over real-valued sequences and an abstract square root.

    The pipeline takes square roots (numpy `sqrt`, `linalg.norm`) but never
    relies on their digits: it compares roots with each other and with
    constants.  A square root is therefore a parameter of every operation
    that needs one, constrained by `IsSqrt`. */
module Reals {

  /** `sqrt` returns the non-negative root of every non-negative real. */
  ghost predicate IsSqrt(sqrt: real -> real)
  {
    forall x :: 0.0 <= x ==> 0.0 <= sqrt(x) && sqrt(x) * sqrt(x) == x
  }

  /** A product is zero only when a factor is. */
  lemma ZeroProduct(x: real, y: real)
    requires x * y == 0.0
    ensures x == 0.0 || y == 0.0
  {
  }

  /** A square is non-negative, and zero only for zero. */
  lemma SquareNonNegative(x: real)
    ensures 0.0 <= x * x
    ensures x * x == 0.0 <==> x == 0.0
  {
    if x * x == 0.0 {
      ZeroProduct(x, x);
    }
  }

  /** Cancelling a non-zero factor. */
  lemma CancelNonZero(x: real, y: real, n: real)
    requires n != 0.0 && x * n == y * n
    ensures x == y
  {
    assert (x - y) * n == 0.0;
    ZeroProduct(x - y, n);
  }

  /** Squaring both sides of `c * n == u`. */
  lemma SquareOfProduct(c: real, n: real, u: real)
    requires c * n == u
    ensures c * c * (n * n) == u * u
  {
  }

  /** Division undone by multiplication. */
  lemma DivMul(u: real, n: real)
    requires n != 0.0
    ensures (u / n) * n == u
  {
  }

  /** Dividing is multiplying by the reciprocal. */
  lemma DivIsMulInverse(u: real, n: real)
    requires n != 0.0
    ensures u / n == u * (1.0 / n)
  {
  }

  /** Dividing by a positive number keeps the sign, and zero. */
  lemma QuotientSign(x: real, n: real)
    requires 0.0 < n
    ensures 0.0 <= x ==> 0.0 <= x / n
    ensures x / n == 0.0 <==> x == 0.0
    ensures x / n * n == x
  {
  }

  /** The defining property of the root, for one radicand. */
  lemma SqrtSquared(sqrt: real -> real, x: real)
    requires IsSqrt(sqrt) && 0.0 <= x
    ensures 0.0 <= sqrt(x) && sqrt(x) * sqrt(x) == x
  {
  }

  /** Two non-negative reals with the same square are equal. */
  lemma SquareInjective(a: real, b: real)
    requires 0.0 <= a && 0.0 <= b && a * a == b * b
    ensures a == b
  {
    assert (a - b) * (a + b) == 0.0;
    ZeroProduct(a - b, a + b);
  }

  /** The root of a square is the absolute value. */
  lemma SqrtOfSquare(sqrt: real -> real, a: real)
    requires IsSqrt(sqrt)
    ensures sqrt(a * a) == (if a < 0.0 then -a else a)
  {
    var r := sqrt(a * a);
    assert 0.0 <= r && r * r == a * a;
    var m := if a < 0.0 then -a else a;
    assert m * m == a * a;
    SquareInjective(r, m);
  }

  /** The root of zero is zero, and only zero has root zero. */
  lemma SqrtZero(sqrt: real -> real, x: real)
    requires IsSqrt(sqrt) && 0.0 <= x
    ensures sqrt(x) == 0.0 <==> x == 0.0
  {
    if x == 0.0 {
      SqrtOfSquare(sqrt, 0.0);
    }
  }

  /** The root preserves order in both directions (strictly and not). */
  lemma SqrtMonotone(sqrt: real -> real, x: real, y: real)
    requires IsSqrt(sqrt) && 0.0 <= x && 0.0 <= y
    ensures x < y <==> sqrt(x) < sqrt(y)
    ensures x <= y <==> sqrt(x) <= sqrt(y)
  {
    var a, b := sqrt(x), sqrt(y);
    assert a * a == x && b * b == y;
    if a < b {
      assert a * a <= a * b;
      assert a * b < b * b;
    } else if b < a {
      assert b * b <= b * a;
      assert b * a < a * a;
    }
  }

  /** Comparing a root with a bound `d >= 0` is comparing the radicand with `d*d`. */
  lemma SqrtLess(sqrt: real -> real, x: real, d: real)
    requires IsSqrt(sqrt) && 0.0 <= x
    ensures sqrt(x) < d <==> (0.0 < d && x < d * d)
  {
    if 0.0 < d {
      SqrtOfSquare(sqrt, d);
      SqrtMonotone(sqrt, x, d * d);
    }
  }

  /** Sum of a sequence of reals, accumulated from the front as numpy does. */
  function Sum(s: seq<real>): real
    decreases |s|
  {
    if s == [] then 0.0 else Sum(s[..|s| - 1]) + s[|s| - 1]
  }

  lemma {:induction false} SumAppend(a: seq<real>, b: seq<real>)
    ensures Sum(a + b) == Sum(a) + Sum(b)
    decreases |b|
  {
    if b == [] {
      assert a + b == a;
    } else {
      assert (a + b)[..|a + b| - 1] == a + b[..|b| - 1];
      SumAppend(a, b[..|b| - 1]);
    }
  }

  lemma {:induction false} SumNonNegative(s: seq<real>)
    requires forall i :: 0 <= i < |s| ==> 0.0 <= s[i]
    ensures 0.0 <= Sum(s)
    decreases |s|
  {
    if s != [] {
      SumNonNegative(s[..|s| - 1]);
    }
  }

  /** A sum of non-negative terms is zero exactly when every term is zero. */
  lemma {:induction false} SumZeroIff(s: seq<real>)
    requires forall i :: 0 <= i < |s| ==> 0.0 <= s[i]
    ensures Sum(s) == 0.0 <==> forall i :: 0 <= i < |s| ==> s[i] == 0.0
    decreases |s|
  {
    if s != [] {
      var p := s[..|s| - 1];
      SumZeroIff(p);
      SumNonNegative(p);
      assert forall i :: 0 <= i < |p| ==> s[i] == p[i];
    }
  }

  /** Every term of a sum of non-negative terms is at most the sum. */
  lemma {:induction false} SumBoundsTerm(s: seq<real>, k: nat)
    requires forall i :: 0 <= i < |s| ==> 0.0 <= s[i]
    requires k < |s|
    ensures s[k] <= Sum(s)
    decreases |s|
  {
    var p := s[..|s| - 1];
    if k < |s| - 1 {
      SumBoundsTerm(p, k);
      assert 0.0 <= s[|s| - 1];
    } else {
      SumNonNegative(p);
    }
  }

  /** Scaling every term scales the sum. */
  lemma {:induction false} SumScale(s: seq<real>, t: seq<real>, c: real)
    requires |s| == |t|
    requires forall i :: 0 <= i < |s| ==> t[i] == s[i] * c
    ensures Sum(t) == Sum(s) * c
    decreases |s|
  {
    if s != [] {
      SumScale(s[..|s| - 1], t[..|t| - 1], c);
    }
  }

  /** Termwise smaller terms give a smaller sum. */
  lemma {:induction false} SumLe(s: seq<real>, t: seq<real>)
    requires |s| == |t|
    requires forall i :: 0 <= i < |s| ==> s[i] <= t[i]
    ensures Sum(s) <= Sum(t)
    decreases |s|
  {
    if s != [] {
      SumLe(s[..|s| - 1], t[..|t| - 1]);
    }
  }

  /** A term in front adds to the sum. */
  lemma SumFront(x: real, t: seq<real>)
    ensures Sum([x] + t) == x + Sum(t)
  {
    SumAppend([x], t);
    assert [x][..0] == [];
  }

  /** Reordering the terms keeps the sum. */
  lemma {:induction false} SumPermutation(a: seq<real>, b: seq<real>)
    requires multiset(a) == multiset(b)
    ensures Sum(a) == Sum(b)
    decreases |a|
  {
    if a != [] {
      var n := |a| - 1;
      var x := a[n];
      assert x in multiset(b);
      var j :| 0 <= j < |b| && b[j] == x;
      var rest := b[..j] + b[j + 1..];
      assert a[..n] == a[..n] + a[n + 1..];
      MultisetRemove(a, n);
      MultisetRemove(b, j);
      SumPermutation(a[..n], rest);
      SumRemove(b, j);
    }
  }

  /** Taking element `j` out of a sequence takes it out of its multiset. */
  lemma MultisetRemove(b: seq<real>, j: nat)
    requires j < |b|
    ensures multiset(b[..j] + b[j + 1..]) == multiset(b) - multiset{b[j]}
  {
    assert b == b[..j] + [b[j]] + b[j + 1..];
    assert multiset(b) == multiset(b[..j]) + multiset{b[j]} + multiset(b[j + 1..]);
  }

  /** The sum is element `j` plus the sum of the others. */
  lemma SumRemove(b: seq<real>, j: nat)
    requires j < |b|
    ensures Sum(b) == b[j] + Sum(b[..j] + b[j + 1..])
  {
    assert b == b[..j] + ([b[j]] + b[j + 1..]);
    SumAppend(b[..j], [b[j]] + b[j + 1..]);
    SumFront(b[j], b[j + 1..]);
    SumAppend(b[..j], b[j + 1..]);
  }
}
