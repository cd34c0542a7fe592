/** Python's `sorted(items, key=...)`: a stable sort, here over items
    paired with the real number they are sorted by. */
module Sorting {

  /** An item and its sort key. */
  datatype Scored<T> = Scored(item: T, score: real)

  /** The keys never decrease along `s`. */
  predicate Ascending<T>(s: seq<Scored<T>>)
  {
    forall i, j :: 0 <= i < j < |s| ==> s[i].score <= s[j].score
  }

  /** `x` placed after every element whose key is not larger than its own:
      in front of the first element with a larger key. */
  function Insert<T>(x: Scored<T>, s: seq<Scored<T>>): (r: seq<Scored<T>>)
    ensures |r| == |s| + 1
    decreases |s|
  {
    if s == [] then [x]
    else if x.score < s[0].score then [x] + s
    else [s[0]] + Insert(x, s[1..])
  }

  /** The insertion sort that keeps elements with equal keys in their
      order. */
  function SortByScore<T>(s: seq<Scored<T>>): (r: seq<Scored<T>>)
    ensures |r| == |s|
    ensures multiset(r) == multiset(s)
    decreases |s|
  {
    if s == [] then []
    else
      var p := s[..|s| - 1];
      InsertElements(s[|s| - 1], SortByScore(p));
      assert s == p + [s[|s| - 1]];
      Insert(s[|s| - 1], SortByScore(p))
  }

  /** The elements of `s` whose key is `d`, in their order. */
  function WithScore<T>(s: seq<Scored<T>>, d: real): (r: seq<Scored<T>>)
    ensures |r| <= |s|
    decreases |s|
  {
    if s == [] then [] else (if s[0].score == d then [s[0]] else []) + WithScore(s[1..], d)
  }

  /** Selecting by key commutes with concatenation. */
  lemma {:induction false} WithScoreAppend<T>(a: seq<Scored<T>>, b: seq<Scored<T>>, d: real)
    ensures WithScore(a + b, d) == WithScore(a, d) + WithScore(b, d)
    decreases |a|
  {
    if a == [] {
      assert a + b == b;
    } else {
      var ab := a + b;
      assert ab[0] == a[0] && ab[1..] == a[1..] + b;
      WithScoreAppend(a[1..], b, d);
      var h := if a[0].score == d then [a[0]] else [];
      assert WithScore(ab, d) == h + WithScore(a[1..] + b, d);
      assert WithScore(a, d) == h + WithScore(a[1..], d);
    }
  }

  /** An ascending sequence whose first key exceeds `d` has no element
      with key `d`. */
  lemma {:induction false} WithScoreAbove<T>(s: seq<Scored<T>>, d: real)
    requires Ascending(s) && s != [] && d < s[0].score
    ensures WithScore(s, d) == []
    decreases |s|
  {
    if |s| > 1 {
      WithScoreAbove(s[1..], d);
    }
  }

  /** Inserting keeps the order ascending. */
  lemma {:induction false} InsertAscending<T>(x: Scored<T>, s: seq<Scored<T>>)
    requires Ascending(s)
    ensures Ascending(Insert(x, s))
    decreases |s|
  {
    if s != [] && s[0].score <= x.score {
      var t := Insert(x, s[1..]);
      InsertAscending(x, s[1..]);
      InsertElements(x, s[1..]);
      forall j | 0 <= j < |t|
        ensures s[0].score <= t[j].score
      {
        assert t[j] in multiset(s[1..]) + multiset{x};
        if t[j] != x {
          assert t[j] in s[1..];
        }
      }
    }
  }

  /** Inserting adds exactly `x`. */
  lemma {:induction false} InsertElements<T>(x: Scored<T>, s: seq<Scored<T>>)
    ensures multiset(Insert(x, s)) == multiset(s) + multiset{x}
    decreases |s|
  {
    if s != [] && s[0].score <= x.score {
      InsertElements(x, s[1..]);
      assert s == [s[0]] + s[1..];
    }
  }

  /** Inserting puts `x` behind every element that has its key. */
  lemma {:induction false} InsertStable<T>(x: Scored<T>, s: seq<Scored<T>>, d: real)
    requires Ascending(s)
    ensures WithScore(Insert(x, s), d) == WithScore(s, d) + WithScore([x], d)
    decreases |s|
  {
    if s == [] {
    } else if x.score < s[0].score {
      if x.score == d {
        WithScoreAbove(s, d);
      }
      WithScoreAppend([x], s, d);
    } else {
      InsertStable(x, s[1..], d);
      WithScoreAppend([s[0]], Insert(x, s[1..]), d);
      WithScoreAppend([s[0]], s[1..], d);
      assert s == [s[0]] + s[1..];
    }
  }

  /** `sorted(s, key=score)`: the result is ascending, has the same
      elements, and keeps elements with equal keys in their order, which
      together fix it. */
  lemma {:induction false} SortByScoreSpec<T>(s: seq<Scored<T>>)
    ensures Ascending(SortByScore(s))
    ensures multiset(SortByScore(s)) == multiset(s)
    ensures forall d :: WithScore(SortByScore(s), d) == WithScore(s, d)
    decreases |s|
  {
    if s != [] {
      var p, x := s[..|s| - 1], s[|s| - 1];
      SortByScoreSpec(p);
      InsertAscending(x, SortByScore(p));
      InsertElements(x, SortByScore(p));
      assert s == p + [x];
      forall d
        ensures WithScore(SortByScore(s), d) == WithScore(s, d)
      {
        InsertStable(x, SortByScore(p), d);
        WithScoreAppend(p, [x], d);
      }
    }
  }

  /** The items of a scored sequence. */
  function Items<T>(s: seq<Scored<T>>): (r: seq<T>)
    ensures |r| == |s|
    ensures forall i :: 0 <= i < |s| ==> r[i] == s[i].item
  {
    seq(|s|, i requires 0 <= i < |s| => s[i].item)
  }

  /** Inserting adds the item of `x` to the items. */
  lemma {:induction false} InsertItems<T>(x: Scored<T>, s: seq<Scored<T>>)
    ensures multiset(Items(Insert(x, s))) == multiset(Items(s)) + multiset{x.item}
    decreases |s|
  {
    if s == [] {
      assert Items([x]) == [x.item];
    } else if x.score < s[0].score {
      assert Items([x] + s) == [x.item] + Items(s);
    } else {
      InsertItems(x, s[1..]);
      assert Items([s[0]] + Insert(x, s[1..])) == [s[0].item] + Items(Insert(x, s[1..]));
      assert Items(s) == [s[0].item] + Items(s[1..]);
    }
  }

  /** Sorting keeps the items, each as often as before. */
  lemma {:induction false} SortKeepsItems<T>(s: seq<Scored<T>>)
    ensures multiset(Items(SortByScore(s))) == multiset(Items(s))
    decreases |s|
  {
    if s != [] {
      var p, x := s[..|s| - 1], s[|s| - 1];
      SortKeepsItems(p);
      InsertItems(x, SortByScore(p));
      assert Items(s) == Items(p) + [x.item];
    }
  }
}
