/** `check_if_label_exists`: an atom label that is already taken in its
    fragment gets the letter 'a' appended until it is free.  The scripts
    carry three copies of the recursion (on a list of labels and on the keys
    of a fragment's atom dictionary); all of them compute `FreeLabel`. */
module UniqueLabels {

  /** `k` copies of the letter 'a'. */
  function As(k: nat): (r: string)
    ensures |r| == k
    ensures forall i :: 0 <= i < k ==> r[i] == 'a'
  {
    seq(k, _ => 'a')
  }

  /** The taken labels at least `n` characters long; the recursion below
      only ever asks about such labels, which bounds it. */
  function Longer(taken: set<string>, n: nat): set<string>
  {
    set s | s in taken && |s| >= n
  }

  /** A taken label of length `n` is counted at `n` and no longer at `n + 1`. */
  lemma LongerShrinks(taken: set<string>, name: string)
    requires name in taken
    ensures |Longer(taken, |name| + 1)| < |Longer(taken, |name|)|
  {
    var small := Longer(taken, |name| + 1);
    var big := Longer(taken, |name|);
    assert small <= big;
    assert name in big - small;
    assert big == small + (big - small);
  }

  /** The label as returned by the recursion: `name` followed by as few
      'a's as make it free.  Every shorter candidate is taken, the result is
      not, and the number of appended letters plus the taken labels that are
      at least as long as the result never exceeds the taken labels at least
      as long as `name`.  A free label comes back unchanged. */
  function FreeLabel(name: string, taken: set<string>): (r: string)
    ensures |r| >= |name| && r == name + As(|r| - |name|)
    ensures r !in taken
    ensures name !in taken ==> r == name
    ensures forall k :: 0 <= k < |r| - |name| ==> name + As(k) in taken
    ensures |r| - |name| + |Longer(taken, |r|)| <= |Longer(taken, |name|)|
    decreases |Longer(taken, |name|)|
  {
    if name in taken then
      LongerShrinks(taken, name);
      var r := FreeLabel(name + "a", taken);
      forall k | 0 <= k < |r| - |name|
        ensures name + As(k) in taken
      {
        if k == 0 {
          assert name + As(0) == name;
        } else {
          assert name + As(k) == name + "a" + As(k - 1);
        }
      }
      assert r == name + As(|r| - |name|);
      r
    else
      assert name + As(0) == name;
      name
  }

  /** The number of appended letters is at most the number of taken labels:
      each rejected candidate is a different taken label. */
  lemma FreeLabelBound(name: string, taken: set<string>)
    ensures |FreeLabel(name, taken)| - |name| <= |taken|
  {
    var l := Longer(taken, |name|);
    assert taken == l + (taken - l);
  }

  /** The labels of a list, as a set, are no more than its length. */
  lemma {:induction false} ElementsBound<T>(s: seq<T>)
    ensures |set x | x in s| <= |s|
  {
    if s != [] {
      var p := s[..|s| - 1];
      ElementsBound(p);
      assert (set x | x in s) == (set x | x in p) + {s[|s| - 1]};
    }
  }
}
