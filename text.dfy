/** The Python string operations the pipeline applies to labels, file names
    and input lines, on `string` (a sequence of characters). */
module Text {

  predicate IsDigit(c: char) { '0' <= c <= '9' }

  /** The blanks the model recognises: space, tab, line feed, carriage
      return, vertical tab and form feed.  Python's `str.strip()` and
      `str.split()` also treat the separators 0x1c-0x1f and the Unicode
      spaces as blank; those are not modelled. */
  predicate IsSpace(c: char)
  {
    c == ' ' || c == '\t' || c == '\n' || c == '\r' || c == (11 as char) || c == (12 as char)
  }

  const Blanks: set<char> := {' ', '\t', '\n', '\r', (11 as char), (12 as char)}

  predicate IsPrefix(p: string, s: string) { |p| <= |s| && s[..|p|] == p }

  /** Python's `sub in s`. */
  predicate Contains(s: string, sub: string)
    decreases |s|
  {
    IsPrefix(sub, s) || (s != [] && Contains(s[1..], sub))
  }

  /** `sub` occurs in `s` starting at position `j`. */
  predicate OccursAt(s: string, sub: string, j: nat)
  {
    j + |sub| <= |s| && s[j..j + |sub|] == sub
  }

  /** An occurrence of `sub` at position `i` makes `s` contain `sub`. */
  lemma {:induction false} ContainsAt(s: string, sub: string, i: nat)
    requires OccursAt(s, sub, i)
    ensures Contains(s, sub)
    decreases i
  {
    if i > 0 {
      assert s[1..][i - 1..i - 1 + |sub|] == s[i..i + |sub|];
      ContainsAt(s[1..], sub, i - 1);
    }
  }

  /** A string that contains `sub` has it at some position. */
  lemma {:induction false} ContainsWitness(s: string, sub: string) returns (i: nat)
    requires Contains(s, sub)
    ensures OccursAt(s, sub, i)
    decreases |s|
  {
    if IsPrefix(sub, s) {
      i := 0;
    } else {
      var j := ContainsWitness(s[1..], sub);
      i := j + 1;
      assert s[1..][j..j + |sub|] == s[i..i + |sub|];
    }
  }

  /** A string with no occurrence of `sub` at any position does not contain it. */
  lemma {:induction false} NoOccurrence(t: string, sub: string)
    requires forall j: nat :: !OccursAt(t, sub, j)
    ensures !Contains(t, sub)
    decreases |t|
  {
    assert !OccursAt(t, sub, 0);
    if t != [] {
      forall j: nat
        ensures !OccursAt(t[1..], sub, j)
      {
        assert !OccursAt(t, sub, j + 1);
        if j + |sub| <= |t| - 1 {
          assert t[1..][j..j + |sub|] == t[j + 1..j + 1 + |sub|];
        }
      }
      NoOccurrence(t[1..], sub);
    }
  }

  /** Position of the first occurrence of `sep` in `s`. */
  function FindFirst(s: string, sep: string): (r: nat)
    requires Contains(s, sep)
    ensures OccursAt(s, sep, r)
    ensures forall j: nat :: j < r ==> !OccursAt(s, sep, j)
    decreases |s|
  {
    if IsPrefix(sep, s) then 0
    else
      var k := FindFirst(s[1..], sep);
      assert !OccursAt(s, sep, 0);
      assert forall j: nat :: 0 < j <= k ==> OccursAt(s, sep, j) == OccursAt(s[1..], sep, j - 1);
      k + 1
  }

  /** `fields` joined with `sep` between consecutive fields (Python's `sep.join`). */
  function Join(fields: seq<string>, sep: string): string
    decreases |fields|
  {
    if fields == [] then ""
    else if |fields| == 1 then fields[0]
    else fields[0] + sep + Join(fields[1..], sep)
  }

  /** Python's `s.split(sep)` for a non-empty separator: the text between
      the leftmost non-overlapping occurrences of `sep` (see `SplitJoin`). */
  function Split(s: string, sep: string): (r: seq<string>)
    requires sep != ""
    ensures |r| >= 1
    decreases |s|
  {
    if !Contains(s, sep) then [s]
    else
      var i := FindFirst(s, sep);
      [s[..i]] + Split(s[i + |sep|..], sep)
  }

  /** Joining the fields of `s.split(sep)` back with `sep` gives `s`. */
  lemma {:induction false} SplitJoin(s: string, sep: string)
    requires sep != ""
    ensures Join(Split(s, sep), sep) == s
    decreases |s|
  {
    if Contains(s, sep) {
      var i := FindFirst(s, sep);
      var tail := s[i + |sep|..];
      SplitJoin(tail, sep);
      var r := Split(s, sep);
      assert r[1..] == Split(tail, sep);
      assert Join(r, sep) == s[..i] + sep + tail;
      AroundOccurrence(s, sep, i);
    }
  }

  /** An occurrence of `sep` at `i` splits `s` into the text before it,
      `sep` and the text after it. */
  lemma AroundOccurrence(s: string, sep: string, i: nat)
    requires OccursAt(s, sep, i)
    ensures s == s[..i] + sep + s[i + |sep|..]
  {
    assert s == s[..i] + s[i..i + |sep|] + s[i + |sep|..];
  }

  /** No field of `s.split(sep)` contains `sep`. */
  lemma {:induction false} SplitFieldsFree(s: string, sep: string)
    requires sep != ""
    ensures forall i :: 0 <= i < |Split(s, sep)| ==> !Contains(Split(s, sep)[i], sep)
    decreases |s|
  {
    if Contains(s, sep) {
      var i := FindFirst(s, sep);
      var tail := s[i + |sep|..];
      SplitFieldsFree(tail, sep);
      PrefixBeforeFirst(s, sep, i);
      var r := Split(s, sep);
      forall k | 0 <= k < |r|
        ensures !Contains(r[k], sep)
      {
        if k > 0 {
          assert r[k] == Split(tail, sep)[k - 1];
        }
      }
    }
  }

  /** `s.split(sep)[0]`: the text before the first `sep`, all of `s` when
      there is none. */
  lemma FirstField(s: string, sep: string)
    requires sep != ""
    ensures IsPrefix(Split(s, sep)[0], s) && !Contains(Split(s, sep)[0], sep)
  {
    SplitFieldsFree(s, sep);
  }

  /** The text before the first occurrence of `sep` does not contain `sep`. */
  lemma PrefixBeforeFirst(s: string, sep: string, i: nat)
    requires sep != "" && i + |sep| <= |s|
    requires forall j: nat :: j < i ==> !OccursAt(s, sep, j)
    ensures !Contains(s[..i], sep)
  {
    forall j: nat
      ensures !OccursAt(s[..i], sep, j)
    {
      if j + |sep| <= i {
        assert !OccursAt(s, sep, j);
        assert s[..i][j..j + |sep|] == s[j..j + |sep|];
      }
    }
    NoOccurrence(s[..i], sep);
  }

  /** Python's `s.split()`: the maximal runs of non-blank characters. */
  function Words(s: string): (r: seq<string>)
    ensures forall i :: 0 <= i < |r| ==> r[i] != "" && forall k :: 0 <= k < |r[i]| ==> !IsSpace(r[i][k])
    decreases |s|
  {
    if s == [] then []
    else if IsSpace(s[0]) then Words(s[1..])
    else
      var n := WordLength(s);
      [s[..n]] + Words(s[n..])
  }

  /** Length of the leading run of non-blank characters of `s`. */
  function WordLength(s: string): (n: nat)
    ensures n <= |s|
    ensures forall k :: 0 <= k < n ==> !IsSpace(s[k])
    ensures n == |s| || IsSpace(s[n])
    decreases |s|
  {
    if s == [] || IsSpace(s[0]) then 0 else 1 + WordLength(s[1..])
  }

  /** A blank after `a` ends the leading word of `a` at the latest. */
  lemma {:induction false} WordLengthSpaced(a: string, b: string)
    ensures WordLength(a + " " + b) == WordLength(a)
    decreases |a|
  {
    var s := a + " " + b;
    if a != [] && !IsSpace(a[0]) {
      assert s[1..] == a[1..] + " " + b;
      WordLengthSpaced(a[1..], b);
    }
  }

  /** Splitting two texts joined by a blank gives the words of the first
      followed by the words of the second. */
  lemma {:induction false} WordsSpaced(a: string, b: string)
    ensures Words(a + " " + b) == Words(a) + Words(b)
    decreases |a|
  {
    var s := a + " " + b;
    if a == [] {
      assert s[1..] == b;
    } else if IsSpace(a[0]) {
      assert s[1..] == a[1..] + " " + b;
      WordsSpaced(a[1..], b);
    } else {
      var n := WordLength(a);
      WordLengthSpaced(a, b);
      assert s[..n] == a[..n];
      assert s[n..] == a[n..] + " " + b;
      WordsSpaced(a[n..], b);
    }
  }

  /** The number of leading characters of `s` that are in `cs`. */
  function LeadingIn(s: string, cs: set<char>): (n: nat)
    ensures n <= |s|
    decreases |s|
  {
    if s != [] && s[0] in cs then 1 + LeadingIn(s[1..], cs) else 0
  }

  /** The number of trailing characters of `s` that are in `cs`. */
  function TrailingIn(s: string, cs: set<char>): (n: nat)
    ensures n <= |s|
    decreases |s|
  {
    if s != [] && s[|s| - 1] in cs then 1 + TrailingIn(s[..|s| - 1], cs) else 0
  }

  /** The leading run counted by `LeadingIn` is in `cs` and is maximal. */
  lemma {:induction false} LeadingInSpec(s: string, cs: set<char>)
    ensures forall k :: 0 <= k < LeadingIn(s, cs) ==> s[k] in cs
    ensures LeadingIn(s, cs) == |s| || s[LeadingIn(s, cs)] !in cs
    decreases |s|
  {
    if s != [] && s[0] in cs {
      LeadingInSpec(s[1..], cs);
      forall k | 0 < k < LeadingIn(s, cs)
        ensures s[k] in cs
      {
        assert s[k] == s[1..][k - 1];
      }
    }
  }

  /** The trailing run counted by `TrailingIn` is in `cs` and is maximal. */
  lemma {:induction false} TrailingInSpec(s: string, cs: set<char>)
    ensures forall k :: |s| - TrailingIn(s, cs) <= k < |s| ==> s[k] in cs
    ensures TrailingIn(s, cs) == |s| || s[|s| - TrailingIn(s, cs) - 1] !in cs
    decreases |s|
  {
    if s != [] && s[|s| - 1] in cs {
      var p := s[..|s| - 1];
      TrailingInSpec(p, cs);
      forall k | |s| - TrailingIn(s, cs) <= k < |s| - 1
        ensures s[k] in cs
      {
        assert s[k] == p[k];
      }
    }
  }

  /** Python's `s.strip(cs)`: `s` without its leading and trailing
      characters in `cs`. */
  function StripChars(s: string, cs: set<char>): string
  {
    var t := s[LeadingIn(s, cs)..];
    t[..|t| - TrailingIn(t, cs)]
  }

  /** Python's `s.strip()`. */
  function Strip(s: string): string
  {
    StripChars(s, Blanks)
  }

  /** `StripChars` keeps a middle slice of `s` whose two ends are not in `cs`,
      and everything cut off on either side is in `cs`. */
  lemma StripCharsShape(s: string, cs: set<char>) returns (i: nat)
    ensures var r := StripChars(s, cs);
      i + |r| <= |s| && r == s[i..i + |r|]
      && (forall k :: 0 <= k < i ==> s[k] in cs)
      && (forall k :: i + |r| <= k < |s| ==> s[k] in cs)
      && (r == [] || (r[0] !in cs && r[|r| - 1] !in cs))
  {
    i := LeadingIn(s, cs);
    var t := s[i..];
    LeadingInSpec(s, cs);
    TrailingInSpec(t, cs);
    var r := StripChars(s, cs);
    assert r == s[i..i + |r|];
    forall k | i + |r| <= k < |s|
      ensures s[k] in cs
    {
      assert s[k] == t[k - i];
    }
  }

  /** The number of trailing characters of `s` other than `c`. */
  function TrailingOther(s: string, c: char): (n: nat)
    ensures n <= |s|
    decreases |s|
  {
    if s != [] && s[|s| - 1] != c then 1 + TrailingOther(s[..|s| - 1], c) else 0
  }

  /** The trailing run counted by `TrailingOther` has no `c` and is maximal. */
  lemma {:induction false} TrailingOtherSpec(s: string, c: char)
    ensures forall k :: |s| - TrailingOther(s, c) <= k < |s| ==> s[k] != c
    ensures TrailingOther(s, c) == |s| || s[|s| - TrailingOther(s, c) - 1] == c
    decreases |s|
  {
    if s != [] && s[|s| - 1] != c {
      var p := s[..|s| - 1];
      TrailingOtherSpec(p, c);
      forall k | |s| - TrailingOther(s, c) <= k < |s| - 1
        ensures s[k] != c
      {
        assert s[k] == p[k];
      }
    }
  }

  /** Text after the last `c` (all of `s` when there is none): `s.rsplit(c, 1)[-1]`. */
  function AfterLast(s: string, c: char): (r: string)
    ensures forall k :: 0 <= k < |r| ==> r[k] != c
    ensures |r| <= |s| && r == s[|s| - |r|..]
    ensures |r| < |s| ==> s[|s| - |r| - 1] == c
  {
    TrailingOtherSpec(s, c);
    s[|s| - TrailingOther(s, c)..]
  }

  /** Text before the last `c` (all of `s` when there is none): `s.rsplit(c, 1)[0]`. */
  function BeforeLast(s: string, c: char): (r: string)
    ensures |r| <= |s| && r == s[..|r|]
    ensures c in s ==> |r| < |s| && s[|r|] == c && c !in s[|r| + 1..]
    ensures c !in s ==> r == s
  {
    if c in s then
      var a := AfterLast(s, c);
      assert s[|s| - |a| - 1] == c;
      s[..|s| - |a| - 1]
    else
      s
  }

  /** Decimal digits of a natural number, as Python's `str(n)`. */
  function NatToString(n: nat): (r: string)
    ensures r != [] && forall k :: 0 <= k < |r| ==> IsDigit(r[k])
    ensures DigitsValue(r) == n
    decreases n
  {
    var d := [(('0' as int) + n % 10) as char];
    if n < 10 then d
    else
      var p := NatToString(n / 10);
      assert (p + d)[..|p + d| - 1] == p;
      p + d
  }

  /** The number a string of decimal digits denotes. */
  function DigitsValue(s: string): nat
    requires forall k :: 0 <= k < |s| ==> IsDigit(s[k])
    decreases |s|
  {
    if s == [] then 0
    else
      assert IsDigit(s[|s| - 1]);
      DigitsValue(s[..|s| - 1]) * 10 + ((s[|s| - 1] as int) - ('0' as int))
  }

  /** Different numbers are written differently. */
  lemma NatToStringInjective(m: nat, n: nat)
    requires NatToString(m) == NatToString(n)
    ensures m == n
  {
  }

  function UpperChar(c: char): char
  {
    if 'a' <= c <= 'z' then (c as int - 32) as char else c
  }

  function LowerChar(c: char): char
  {
    if 'A' <= c <= 'Z' then (c as int + 32) as char else c
  }

  /** `s.upper()` on ASCII letters. */
  function Upper(s: string): (r: string)
    ensures |r| == |s| && forall k :: 0 <= k < |s| ==> r[k] == UpperChar(s[k])
  {
    seq(|s|, k requires 0 <= k < |s| => UpperChar(s[k]))
  }

  /** `s.lower()` on ASCII letters. */
  function Lower(s: string): (r: string)
    ensures |r| == |s| && forall k :: 0 <= k < |s| ==> r[k] == LowerChar(s[k])
  {
    seq(|s|, k requires 0 <= k < |s| => LowerChar(s[k]))
  }
}
