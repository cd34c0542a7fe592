/** `code/check_coord_data.py`: how many fragments each database entry of a
    coordinate file holds, and how many entries hold more than one. */
module CheckCoordData {
  import opened Text
  import opened Lists
  import LoadAndAlign

  /** The entry a "FRAG" line belongs to: its first `**` field, stripped. */
  function EntryOf(line: string): string
  {
    Strip(Split(line, "**")[0])
  }

  /** The dictionary `count_dict`: its keys in insertion order and its values. */
  datatype Counts = Counts(entries: seq<string>, count: map<string, nat>)

  /** Keys are listed once each, and exactly the keys are listed. */
  ghost predicate WellFormed(c: Counts)
  {
    Distinct(c.entries) && forall e :: e in c.count <==> e in c.entries
  }

  /** One line of the loop: a "FRAG" line bumps its entry's count, or adds
      the entry with count 1; any other line changes nothing. */
  function Tick(c: Counts, line: string): Counts
  {
    if Contains(line, "FRAG") then Bump(c, EntryOf(line)) else c
  }

  /** `count_dict[entry] += 1`, or `count_dict[entry] = 1` for a new entry. */
  function Bump(c: Counts, e: string): Counts
  {
    if e in c.count then Counts(c.entries, c.count[e := c.count[e] + 1])
    else Counts(c.entries + [e], c.count[e := 1])
  }

  /** The dictionary after the loop has read `lines`. */
  function Tally(lines: seq<string>): Counts
    decreases |lines|
  {
    if lines == [] then Counts([], map[]) else Tick(Tally(lines[..|lines| - 1]), lines[|lines| - 1])
  }

  /** `count_fragments_per_entry`, on the lines of the file. */
  method CountFragmentsPerEntry(lines: seq<string>) returns (entries: seq<string>, count: map<string, nat>)
    ensures Counts(entries, count) == Tally(lines)
  {
    entries, count := [], map[];
    var i := 0;
    while i < |lines|
      invariant i <= |lines|
      invariant Counts(entries, count) == Tally(lines[..i])
    {
      assert lines[..i + 1][..i] == lines[..i];
      var line := lines[i];
      if Contains(line, "FRAG") {
        var entry := EntryOf(line);
        if entry in count {
          count := count[entry := count[entry] + 1];
        } else {
          entries, count := entries + [entry], count[entry := 1];
        }
      }
      i := i + 1;
    }
    assert lines[..|lines|] == lines;
  }

  /** The number of "FRAG" lines of `lines` whose entry is `e`. */
  function EntryLines(lines: seq<string>, e: string): nat
    decreases |lines|
  {
    if lines == [] then 0
    else EntryLines(lines[..|lines| - 1], e) + if Contains(lines[|lines| - 1], "FRAG") && EntryOf(lines[|lines| - 1]) == e then 1 else 0
  }

  /** The count of an entry, 0 when it is no key. */
  function CountOf(c: Counts, e: string): nat
  {
    if e in c.count then c.count[e] else 0
  }

  /** The keys are listed once each, in the order they were added. */
  lemma {:induction false} TallyWellFormed(lines: seq<string>)
    ensures WellFormed(Tally(lines))
    decreases |lines|
  {
    if lines != [] {
      var p := lines[..|lines| - 1];
      TallyWellFormed(p);
      var c := Tally(p);
      var line := lines[|lines| - 1];
      if Contains(line, "FRAG") && EntryOf(line) !in c.count {
        DistinctAppend(c.entries, EntryOf(line));
      }
    }
  }

  /** Every entry's count is the number of "FRAG" lines of that entry, so
      lines without "FRAG" play no part; every key has count at least 1. */
  lemma {:induction false} TallyCounts(lines: seq<string>)
    ensures forall e :: CountOf(Tally(lines), e) == EntryLines(lines, e)
    ensures forall e :: e in Tally(lines).count ==> Tally(lines).count[e] >= 1
    decreases |lines|
  {
    if lines != [] {
      TallyCounts(lines[..|lines| - 1]);
    }
  }

  /** Every key is the entry of some "FRAG" line of the file. */
  lemma {:induction false} TallyKeysFromLines(lines: seq<string>, e: string)
    requires e in Tally(lines).count
    ensures exists i :: 0 <= i < |lines| && Contains(lines[i], "FRAG") && EntryOf(lines[i]) == e
    decreases |lines|
  {
    var p := lines[..|lines| - 1];
    var line := lines[|lines| - 1];
    if Contains(line, "FRAG") && EntryOf(line) == e {
      assert lines[|lines| - 1] == line;
    } else {
      TallyKeysFromLines(p, e);
      var i :| 0 <= i < |p| && Contains(p[i], "FRAG") && EntryOf(p[i]) == e;
      assert lines[i] == p[i];
    }
  }

  /** `sum(d.values())`: the counts added up in key order. */
  function Total(entries: seq<string>, count: map<string, nat>): nat
    decreases |entries|
  {
    if entries == [] then 0
    else Total(entries[..|entries| - 1], count) + if entries[|entries| - 1] in count then count[entries[|entries| - 1]] else 0
  }

  /** Raising the count of one listed key by one raises the total by one. */
  lemma {:induction false} TotalBump(entries: seq<string>, count: map<string, nat>, e: string)
    requires Distinct(entries) && e in count
    ensures Total(entries, count[e := count[e] + 1]) == Total(entries, count) + if e in entries then 1 else 0
    decreases |entries|
  {
    if entries != [] {
      var p := entries[..|entries| - 1];
      assert Distinct(p) by {
        forall i, j | 0 <= i < j < |p|
          ensures p[i] != p[j]
        {
          assert p[i] == entries[i] && p[j] == entries[j];
        }
      }
      TotalBump(p, count, e);
      if e == entries[|entries| - 1] {
        forall i | 0 <= i < |p|
          ensures p[i] != e
        {
          assert p[i] == entries[i];
        }
      } else if e in entries {
        var i :| 0 <= i < |entries| && entries[i] == e;
        assert p[i] == e;
      }
    }
  }

  /** Adding a key that no listed entry has does not change the total of the
      listed entries. */
  lemma {:induction false} TotalFresh(entries: seq<string>, count: map<string, nat>, e: string, v: nat)
    requires e !in entries
    ensures Total(entries, count[e := v]) == Total(entries, count)
    decreases |entries|
  {
    if entries != [] {
      TotalFresh(entries[..|entries| - 1], count, e, v);
    }
  }

  /** `HeaderCount` read from the back: one more line adds one when it is a
      "FRAG" line. */
  lemma {:induction false} HeaderCountSnoc(lines: seq<string>, line: string)
    ensures LoadAndAlign.HeaderCount(lines + [line]) ==
            LoadAndAlign.HeaderCount(lines) + if Contains(line, "FRAG") then 1 else 0
    decreases |lines|
  {
    if lines != [] {
      HeaderCountSnoc(lines[1..], line);
      assert (lines + [line])[1..] == lines[1..] + [line];
    }
  }

  /** Counting one more fragment of an entry raises the total by one. */
  lemma BumpTotal(c: Counts, e: string)
    requires Distinct(c.entries) && (e in c.count <==> e in c.entries)
    ensures Total(Bump(c, e).entries, Bump(c, e).count) == Total(c.entries, c.count) + 1
  {
    if e in c.count {
      TotalBump(c.entries, c.count, e);
    } else {
      TotalFresh(c.entries, c.count, e, 1);
      TotalSnoc(c.entries, c.count[e := 1], e);
    }
  }

  /** One more listed entry adds its count to the total. */
  lemma TotalSnoc(entries: seq<string>, count: map<string, nat>, e: string)
    requires e in count
    ensures Total(entries + [e], count) == Total(entries, count) + count[e]
  {
    assert (entries + [e])[..|entries|] == entries;
  }

  /** The counts add up to the number of lines containing "FRAG": every
      fragment of the file is counted once. */
  lemma {:induction false} TallyTotal(lines: seq<string>)
    ensures Total(Tally(lines).entries, Tally(lines).count) == LoadAndAlign.HeaderCount(lines)
    decreases |lines|
  {
    if lines != [] {
      var p := lines[..|lines| - 1];
      var line := lines[|lines| - 1];
      TallyTotal(p);
      TallyWellFormed(p);
      if Contains(line, "FRAG") {
        BumpTotal(Tally(p), EntryOf(line));
      }
      HeaderCountSnoc(p, line);
      assert p + [line] == lines;
    }
  }

  /** The entries of `entries` whose count exceeds one. */
  function Crowded(entries: seq<string>, count: map<string, nat>): set<string>
  {
    set e | e in entries && e in count && count[e] > 1
  }

  /** One more entry joins the crowded ones exactly when its count exceeds one. */
  lemma CrowdedSnoc(entries: seq<string>, e: string, count: map<string, nat>)
    requires e !in entries
    ensures |Crowded(entries + [e], count)| ==
            |Crowded(entries, count)| + if e in count && count[e] > 1 then 1 else 0
  {
    if e in count && count[e] > 1 {
      assert Crowded(entries + [e], count) == Crowded(entries, count) + {e};
    } else {
      assert Crowded(entries + [e], count) == Crowded(entries, count);
    }
  }

  /** The loop of `main` that counts the entries with more than one
      fragment. */
  method EntriesMoreThanOne(entries: seq<string>, count: map<string, nat>) returns (n: nat)
    requires Distinct(entries)
    ensures n == |Crowded(entries, count)|
  {
    n := 0;
    var i := 0;
    while i < |entries|
      invariant i <= |entries|
      invariant n == |Crowded(entries[..i], count)|
    {
      var e := entries[i];
      assert e !in entries[..i] by {
        forall k | 0 <= k < i
          ensures entries[..i][k] != e
        {
          assert entries[..i][k] == entries[k];
        }
      }
      assert entries[..i + 1] == entries[..i] + [e];
      CrowdedSnoc(entries[..i], e, count);
      if e in count && count[e] > 1 {
        n := n + 1;
      }
      i := i + 1;
    }
    assert entries[..|entries|] == entries;
  }
}
