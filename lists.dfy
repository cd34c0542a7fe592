/** Python list operations on sequences: `list.index`, counting. */
module Lists {
  import opened Wrappers

  /** `s.index(x)`: the first position of `x`, or `None` where Python
      raises `ValueError`. */
  function IndexOf<T(==)>(s: seq<T>, x: T): (r: Option<nat>)
    ensures r.Some? <==> x in s
    ensures r.Some? ==> r.value < |s| && s[r.value] == x && forall j :: 0 <= j < r.value ==> s[j] != x
    decreases |s|
  {
    if s == [] then None
    else if s[0] == x then Some(0)
    else
      var r := IndexOf(s[1..], x);
      assert x in s <==> x in s[1..] by {
        assert s == [s[0]] + s[1..];
      }
      if r.Some? then Some(r.value + 1) else None
  }

  /** Number of entries of `s` different from `x`. */
  function CountOther<T(==)>(s: seq<T>, x: T): (n: nat)
    ensures n <= |s|
    decreases |s|
  {
    if s == [] then 0
    else CountOther(s[..|s| - 1], x) + (if s[|s| - 1] != x then 1 else 0)
  }

  /** The count is the size of the set of positions holding another value. */
  lemma {:induction false} CountOtherPositions<T>(s: seq<T>, x: T)
    ensures CountOther(s, x) == |set j | 0 <= j < |s| && s[j] != x|
    decreases |s|
  {
    if s != [] {
      var p := s[..|s| - 1];
      CountOtherPositions(p, x);
      var a := set j | 0 <= j < |p| && p[j] != x;
      var b := set j | 0 <= j < |s| && s[j] != x;
      if s[|s| - 1] != x {
        assert b == a + {|s| - 1};
      } else {
        assert b == a;
      }
    }
  }

  /** Replacing one entry that is not `x` by another that is not `x` keeps
      the number of entries other than `x`. */
  lemma {:induction false} CountOtherUpdate<T>(s: seq<T>, k: nat, v: T, x: T)
    requires k < |s| && s[k] != x && v != x
    ensures CountOther(s[k := v], x) == CountOther(s, x)
    decreases |s|
  {
    var t := s[k := v];
    var p := s[..|s| - 1];
    if k == |s| - 1 {
      assert t[..|t| - 1] == p;
    } else {
      assert t[..|t| - 1] == p[k := v];
      CountOtherUpdate(p, k, v, x);
    }
  }

  /** No value occurs twice. */
  predicate Distinct<T(==)>(s: seq<T>)
  {
    forall i, j :: 0 <= i < j < |s| ==> s[i] != s[j]
  }

  /** A sequence without repetitions has as many elements as entries. */
  lemma {:induction false} DistinctElements<T>(s: seq<T>)
    requires Distinct(s)
    ensures |set x | x in s| == |s|
  {
    if s != [] {
      var p := s[..|s| - 1];
      DistinctElements(p);
      assert (set x | x in s) == (set x | x in p) + {s[|s| - 1]};
      assert s[|s| - 1] !in p by {
        forall i | 0 <= i < |p|
          ensures p[i] != s[|s| - 1]
        {
          assert s[i] == p[i];
        }
      }
    }
  }

  /** Appending a new value keeps a sequence free of repetitions. */
  lemma DistinctAppend<T>(s: seq<T>, x: T)
    requires Distinct(s) && x !in s
    ensures Distinct(s + [x])
  {
    var t := s + [x];
    forall i, j | 0 <= i < j < |t|
      ensures t[i] != t[j]
    {
      if j < |s| {
        assert t[i] == s[i] && t[j] == s[j];
      } else {
        assert t[i] == s[i];
      }
    }
  }

  /** `pd.unique(s)`: each value once, in order of first appearance. */
  function Unique<T(==,!new)>(s: seq<T>): (r: seq<T>)
    ensures Distinct(r)
    ensures forall x :: x in r <==> x in s
    decreases |s|
  {
    if s == [] then []
    else
      var p := Unique(s[..|s| - 1]);
      var x := s[|s| - 1];
      assert forall y :: y in s <==> y in s[..|s| - 1] || y == x by {
        assert s == s[..|s| - 1] + [x];
      }
      if x in p then p
      else
        DistinctAppend(p, x);
        p + [x]
  }

  /** The first value of `s` comes first. */
  lemma {:induction false} UniqueFirst<T(!new)>(s: seq<T>)
    requires s != []
    ensures Unique(s) != [] && Unique(s)[0] == s[0]
    decreases |s|
  {
    if |s| > 1 {
      UniqueFirst(s[..|s| - 1]);
    }
  }

  /** Each value smaller than the next. */
  predicate Increasing(s: seq<int>)
  {
    forall i, j :: 0 <= i < j < |s| ==> s[i] < s[j]
  }

  /** `x` put into its place in an increasing sequence, unless it is there
      already. */
  function InsertSorted(s: seq<int>, x: int): (r: seq<int>)
    requires Increasing(s)
    ensures Increasing(r)
    ensures forall y :: y in r <==> y in s || y == x
    decreases |s|
  {
    if s == [] then [x]
    else if x < s[0] then [x] + s
    else if x == s[0] then s
    else
      var t := InsertSorted(s[1..], x);
      assert forall y :: y in t ==> s[0] < y by {
        forall y | y in t
          ensures s[0] < y
        {
          if y != x {
            var i :| 0 <= i < |s[1..]| && s[1..][i] == y;
            assert s[i + 1] == y;
          }
        }
      }
      var r := [s[0]] + t;
      assert forall i :: 0 < i < |r| ==> r[i] == t[i - 1] && r[i] in t;
      r
  }

  /** The group keys of pandas' `groupby` (which sorts them): each value of
      `s` once, in ascending order. */
  function SortedUnique(s: seq<int>): (r: seq<int>)
    ensures Increasing(r) && Distinct(r)
    ensures forall x :: x in r <==> x in s
    decreases |s|
  {
    if s == [] then []
    else
      var n := |s| - 1;
      assert forall y :: y in s <==> y in s[..n] || y == s[n] by {
        assert s == s[..n] + [s[n]];
      }
      InsertSorted(SortedUnique(s[..n]), s[n])
  }

  /** Two increasing sequences with the same values are equal, so
      `SortedUnique` is the only ascending list of the values of `s`. */
  lemma {:induction false} IncreasingUnique(a: seq<int>, b: seq<int>)
    requires Increasing(a) && Increasing(b)
    requires forall x :: x in a <==> x in b
    ensures a == b
    decreases |a|
  {
    if a != [] {
      assert a[0] in a;
    }
    if b != [] {
      assert b[0] in b;
    }
    if a != [] && b != [] {
      assert a[0] == b[0] by {
        var i :| 0 <= i < |b| && b[i] == a[0];
        var j :| 0 <= j < |a| && a[j] == b[0];
        assert b[0] <= a[0] && a[0] <= b[0];
      }
      forall x
        ensures x in a[1..] <==> x in b[1..]
      {
        if x in a[1..] {
          var i :| 1 <= i < |a| && a[i] == x;
          assert x != b[0];
          assert x in b;
          var j :| 0 <= j < |b| && b[j] == x;
        }
        if x in b[1..] {
          var j :| 1 <= j < |b| && b[j] == x;
          assert x != a[0];
          assert x in a;
          var i :| 0 <= i < |a| && a[i] == x;
        }
      }
      IncreasingUnique(a[1..], b[1..]);
      assert a == [a[0]] + a[1..] && b == [b[0]] + b[1..];
    }
  }

  /** `f` applied to every element, in order. */
  function MapSeq<A, B>(s: seq<A>, f: A -> B): (r: seq<B>)
    ensures |r| == |s|
    ensures forall i :: 0 <= i < |s| ==> r[i] == f(s[i])
  {
    seq(|s|, i requires 0 <= i < |s| => f(s[i]))
  }

  /** Taking the last element of `a` out of `a`, and one equal element
      out of `b`, keeps the two permutations of each other. */
  lemma RemoveMatching<T>(a: seq<T>, b: seq<T>, j: nat)
    requires a != [] && multiset(a) == multiset(b)
    requires j < |b| && b[j] == a[|a| - 1]
    ensures multiset(a[..|a| - 1]) == multiset(b[..j] + b[j + 1..])
  {
    var n := |a| - 1;
    var x := a[n];
    assert a == a[..n] + [x];
    assert b == b[..j] + [x] + b[j + 1..];
    assert multiset(b) == multiset(b[..j]) + multiset([x]) + multiset(b[j + 1..]);
    assert multiset(a) == multiset(a[..n]) + multiset([x]);
    calc {
      multiset(a[..n]);
      multiset(a) - multiset([x]);
      multiset(b) - multiset([x]);
      multiset(b[..j]) + multiset(b[j + 1..]);
      multiset(b[..j] + b[j + 1..]);
    }
  }

  /** Mapping distributes over concatenation. */
  lemma MapSeqAppend<A, B>(a: seq<A>, b: seq<A>, f: A -> B)
    ensures MapSeq(a + b, f) == MapSeq(a, f) + MapSeq(b, f)
  {
    assert forall i :: 0 <= i < |a + b| ==> MapSeq(a + b, f)[i] == (MapSeq(a, f) + MapSeq(b, f))[i];
  }

  /** Mapping keeps two sequences permutations of each other. */
  lemma {:induction false} MapPermutation<A, B>(a: seq<A>, b: seq<A>, f: A -> B)
    requires multiset(a) == multiset(b)
    ensures multiset(MapSeq(a, f)) == multiset(MapSeq(b, f))
    decreases |a|
  {
    if a != [] {
      var n := |a| - 1;
      var x := a[n];
      assert x in multiset(b) by {
        assert a == a[..n] + [x];
      }
      var j :| 0 <= j < |b| && b[j] == x;
      var rest := b[..j] + b[j + 1..];
      RemoveMatching(a, b, j);
      MapPermutation(a[..n], rest, f);
      assert a == a[..n] + [x];
      assert b == b[..j] + ([x] + b[j + 1..]);
      MapSeqAppend(a[..n], [x], f);
      MapSeqAppend([x], b[j + 1..], f);
      MapSeqAppend(b[..j], [x] + b[j + 1..], f);
      MapSeqAppend(b[..j], b[j + 1..], f);
      assert MapSeq([x], f) == [f(x)];
    }
  }
}
