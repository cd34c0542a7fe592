/** `helpers/Fragment.py`: the fragments of the first version of the
    pipeline.  A fragment holds its atoms in a dictionary keyed by label,
    a list of bonds, and a reference to its center atom; it finds the
    center, measures every atom's distance to it, bonds the nearest atoms,
    moves the center to the origin and mirrors the fragment in z.

    Atoms are values: the dictionary owns the atoms it stores, and changing
    an atom means storing the changed value under its key.  The one place
    where the script's object references matter is `center_atom`: it names
    an atom of the dictionary, unless that atom was since replaced by
    `add_atom`, in which case the reference keeps the replaced atom alive
    outside the dictionary (`Detached`). */
module MoleculeFragments {
  import opened Wrappers
  import opened Lists
  import opened Text
  import opened Vectors
  import opened Blocks
  import opened Reals
  import opened AlignmentHelpers
  import opened Sorting

  /** What an atom carries besides its coordinates: the label (`label`), the
      distance to the center (`None` until measured) and the part it belongs to ("f"
      for the fragment, "c" for the center group). */
  datatype Tags = Tags(name: string, distanceToCenter: Option<real>, partOf: string, isPartOfTarget: bool)

  /** An atom: its tags and its coordinates. */
  datatype Atom = Atom(tags: Tags, pos: Vec3)

  /** `Atom(label, x, y, z)` with the coordinates already read as numbers:
      not yet measured, part of the fragment. */
  function NewAtom(name: string, pos: Vec3): (a: Atom)
    ensures a.tags.name == name && a.pos == pos
    ensures a.tags.distanceToCenter.None? && a.tags.partOf == "f" && !a.tags.isPartOfTarget
  {
    Atom(Tags(name, None, "f", false), pos)
  }

  /** A bond `[label1, label2]`. */
  datatype Bond = Bond(first: string, second: string)

  /** What `center_atom` refers to: nothing yet (the attribute does not
      exist), the atom stored under a key, or an atom no longer in the
      dictionary. */
  datatype Center = NoCenter | Stored(key: string) | Detached(atom: Atom)

  const NoCenterAttribute := "'Fragment' object has no attribute 'center_atom'"
  const IndexOutOfRange := "list index out of range"
  const DivisionByZero := "division by zero"

  /** `keys` lists every key of `table` exactly once: the dictionary and
      its insertion order. */
  ghost predicate Covers(table: map<string, Atom>, keys: seq<string>)
  {
    Distinct(keys) && forall k :: k in table <==> k in keys
  }

  /** Every atom is stored under its own label. */
  ghost predicate Keyed(table: map<string, Atom>)
  {
    forall k :: k in table ==> table[k].tags.name == k
  }

  /** `after` holds the atoms of `before` under the same keys, changed at
      most in their coordinates. */
  ghost predicate OnlyMoved(before: map<string, Atom>, after: map<string, Atom>)
  {
    after.Keys == before.Keys && forall k :: k in after ==> after[k] == before[k].(pos := after[k].pos)
  }

  /** The coordinates of the atoms stored under `keys`, in that order. */
  function PositionsOf(table: map<string, Atom>, keys: seq<string>): (r: seq<Vec3>)
    requires forall i :: 0 <= i < |keys| ==> keys[i] in table
    ensures |r| == |keys|
    ensures forall i :: 0 <= i < |keys| ==> r[i] == table[keys[i]].pos
  {
    seq(|keys|, i requires 0 <= i < |keys| => table[keys[i]].pos)
  }

  /** A dictionary without repetitions in its order has as many entries as
      its order (`len(self.atoms)`). */
  lemma CoversCount(table: map<string, Atom>, keys: seq<string>)
    requires Covers(table, keys)
    ensures |table| == |keys|
  {
    DistinctElements(keys);
    assert table.Keys == set k | k in keys;
  }

  // ---------------------------------------------------------------------
  // set_center

  /** The label of `a` contains `atomType`. */
  predicate Matches(a: Atom, atomType: string)
  {
    Contains(a.tags.name, atomType)
  }

  /** An atom as `set_center` leaves it: distance 0 and part of the
      center when its label matches, unchanged otherwise. */
  function MarkCenter(a: Atom, atomType: string): Atom
  {
    if Matches(a, atomType) then a.(tags := a.tags.(distanceToCenter := Some(0.0), partOf := "c")) else a
  }

  /** The atoms after `set_center`: every atom whose label contains
      `atomType` is marked, the others are unchanged. */
  function Marked(table: map<string, Atom>, atomType: string): (r: map<string, Atom>)
    ensures r.Keys == table.Keys
    ensures forall k :: k in r ==> r[k].pos == table[k].pos && r[k].tags.name == table[k].tags.name
    ensures forall k :: k in r && Matches(table[k], atomType) ==>
      r[k].tags.distanceToCenter == Some(0.0) && r[k].tags.partOf == "c"
    ensures forall k :: k in r && !Matches(table[k], atomType) ==> r[k] == table[k]
  {
    map k | k in table :: MarkCenter(table[k], atomType)
  }

  /** The position in `keys` of the last atom whose label contains
      `atomType`. */
  function LastMatch(table: map<string, Atom>, keys: seq<string>, atomType: string): (r: Option<nat>)
    requires forall i :: 0 <= i < |keys| ==> keys[i] in table
    ensures r.Some? ==> r.value < |keys| && Matches(table[keys[r.value]], atomType)
    ensures r.Some? ==> forall j :: r.value < j < |keys| ==> !Matches(table[keys[j]], atomType)
    ensures r.None? ==> forall j :: 0 <= j < |keys| ==> !Matches(table[keys[j]], atomType)
    decreases |keys|
  {
    if keys == [] then None
    else if Matches(table[keys[|keys| - 1]], atomType) then Some(|keys| - 1)
    else LastMatch(table, keys[..|keys| - 1], atomType)
  }

  /** The center after `set_center`: the last matching atom, or the old
      center when no label matches. */
  function Chosen(table: map<string, Atom>, keys: seq<string>, atomType: string, old_: Center): Center
    requires forall i :: 0 <= i < |keys| ==> keys[i] in table
  {
    match LastMatch(table, keys, atomType)
    case Some(i) => Stored(keys[i])
    case None => old_
  }

  /** One more key: its atom becomes the center when it matches. */
  lemma ChosenNext(table: map<string, Atom>, keys: seq<string>, i: nat, atomType: string, center: Center)
    requires i < |keys| && forall j :: 0 <= j < |keys| ==> keys[j] in table
    ensures Chosen(table, keys[..i + 1], atomType, center) ==
      if Matches(table[keys[i]], atomType) then Stored(keys[i]) else Chosen(table, keys[..i], atomType, center)
  {
    assert keys[..i + 1][..i] == keys[..i];
  }

  /** The atoms after the first `i` keys of the loop: those keys marked,
      the others untouched. */
  ghost predicate MarkedTo(table: map<string, Atom>, keys: seq<string>, atomType: string, i: nat, t: map<string, Atom>)
    requires i <= |keys|
  {
    t.Keys == table.Keys &&
    forall k :: k in t ==> t[k] == if k in keys[..i] then MarkCenter(table[k], atomType) else table[k]
  }

  /** One more key of the loop. */
  lemma MarkedNext(table: map<string, Atom>, keys: seq<string>, atomType: string, i: nat, t: map<string, Atom>)
    requires Covers(table, keys) && i < |keys| && MarkedTo(table, keys, atomType, i, t)
    ensures keys[i] in t && t[keys[i]] == table[keys[i]]
    ensures MarkedTo(table, keys, atomType, i + 1, t[keys[i] := MarkCenter(table[keys[i]], atomType)])
    ensures !Matches(table[keys[i]], atomType) ==> MarkedTo(table, keys, atomType, i + 1, t)
  {
    assert keys[..i + 1] == keys[..i] + [keys[i]];
    assert forall j :: 0 <= j < i ==> keys[..i][j] != keys[i];
  }

  /** After every key, the table is the marked one. */
  lemma MarkedDone(table: map<string, Atom>, keys: seq<string>, atomType: string, t: map<string, Atom>)
    requires Covers(table, keys) && MarkedTo(table, keys, atomType, |keys|, t)
    ensures t == Marked(table, atomType)
  {
    assert keys[..|keys|] == keys;
  }

  /** The loop of `set_center` over the atoms in dictionary order. */
  method MarkTable(table: map<string, Atom>, keys: seq<string>, atomType: string, center: Center)
    returns (t: map<string, Atom>, c: Center)
    requires Covers(table, keys)
    ensures t == Marked(table, atomType)
    ensures c == Chosen(table, keys, atomType, center)
  {
    t, c := table, center;
    var i := 0;
    while i < |keys|
      invariant 0 <= i <= |keys|
      invariant MarkedTo(table, keys, atomType, i, t)
      invariant c == Chosen(table, keys[..i], atomType, center)
    {
      ChosenNext(table, keys, i, atomType, center);
      MarkedNext(table, keys, atomType, i, t);
      var atom := t[keys[i]];
      if Matches(atom, atomType) {
        c := Stored(keys[i]);
        t := t[keys[i] := MarkCenter(atom, atomType)];
      }
      i := i + 1;
    }
    assert keys[..|keys|] == keys;
    MarkedDone(table, keys, atomType, t);
  }

  // ---------------------------------------------------------------------
  // find_bonds_NO3_and_distances

  /** The atoms after the distance loop: every atom that is not the center
      gets its distance to the center at `c`, `sqrt` of the summed squared
      differences. */
  function Measured(table: map<string, Atom>, skip: Option<string>, c: Vec3, sqrt: real -> real): (r: map<string, Atom>)
    ensures r.Keys == table.Keys
  {
    map k | k in table :: if skip == Some(k) then table[k] else Measure(table[k], c, sqrt)
  }

  /** An atom with its distance to the center at `c`. */
  function Measure(a: Atom, c: Vec3, sqrt: real -> real): Atom
  {
    a.(tags := a.tags.(distanceToCenter := Some(sqrt(SqDist(a.pos, c)))))
  }

  /** The distance loop. */
  method MeasureTable(table: map<string, Atom>, keys: seq<string>, skip: Option<string>, c: Vec3, sqrt: real -> real)
    returns (t: map<string, Atom>)
    requires Covers(table, keys)
    ensures t == Measured(table, skip, c, sqrt)
  {
    t := table;
    var i := 0;
    while i < |keys|
      invariant 0 <= i <= |keys|
      invariant t.Keys == table.Keys
      invariant forall j :: 0 <= j < i ==> t[keys[j]] == if skip == Some(keys[j]) then table[keys[j]] else Measure(table[keys[j]], c, sqrt)
      invariant forall j :: i <= j < |keys| ==> t[keys[j]] == table[keys[j]]
    {
      var atom := t[keys[i]];
      if skip != Some(keys[i]) {
        var d := sqrt(SqDist(atom.pos, c));
        t := t[keys[i] := atom.(tags := atom.tags.(distanceToCenter := Some(d)))];
      }
      i := i + 1;
    }
    forall k | k in t
      ensures t[k] == Measured(table, skip, c, sqrt)[k]
    {
      var j :| 0 <= j < |keys| && keys[j] == k;
    }
  }

  /** Every atom has been measured. */
  ghost predicate AllMeasured(table: map<string, Atom>)
  {
    forall k :: k in table ==> table[k].tags.distanceToCenter.Some?
  }

  /** The atoms in dictionary order, each with its distance as sort key. */
  function Scores(table: map<string, Atom>, keys: seq<string>): (r: seq<Scored<string>>)
    requires forall i :: 0 <= i < |keys| ==> keys[i] in table && table[keys[i]].tags.distanceToCenter.Some?
    ensures |r| == |keys|
    ensures forall i :: 0 <= i < |keys| ==> r[i] == Scored(keys[i], table[keys[i]].tags.distanceToCenter.value)
  {
    seq(|keys|, i requires 0 <= i < |keys| => Scored(keys[i], table[keys[i]].tags.distanceToCenter.value))
  }

  /** `sorted(self.atoms.values(), key=distance_to_center)`, as keys. */
  function Attached(table: map<string, Atom>, keys: seq<string>): (r: seq<string>)
    requires forall i :: 0 <= i < |keys| ==> keys[i] in table && table[keys[i]].tags.distanceToCenter.Some?
    ensures |r| == |keys|
  {
    Items(SortByScore(Scores(table, keys)))
  }

  /** The keys of `attached_atoms[1:4]`. */
  function Nearest(attached: seq<string>): (r: seq<string>)
    ensures |r| == if |attached| <= 1 then 0 else if |attached| < 4 then |attached| - 1 else 3
    ensures forall j :: 0 <= j < |r| ==> r[j] == attached[j + 1]
  {
    if |attached| <= 1 then [] else attached[1..if |attached| < 4 then |attached| else 4]
  }

  /** The bonds from the center to each of `nearest`, in order. */
  function CenterBonds(centerLabel: string, nearest: seq<string>): (r: seq<Bond>)
    ensures |r| == |nearest|
    ensures forall j :: 0 <= j < |r| ==> r[j] == Bond(centerLabel, nearest[j])
  {
    seq(|nearest|, j requires 0 <= j < |nearest| => Bond(centerLabel, nearest[j]))
  }

  /** The atoms under `nearest` become part of the center group. */
  function Joined(table: map<string, Atom>, nearest: seq<string>): (r: map<string, Atom>)
    ensures r.Keys == table.Keys
  {
    map k | k in table :: if k in nearest then table[k].(tags := table[k].tags.(partOf := "c")) else table[k]
  }

  /** The loop over `attached_atoms[1:4]`: a bond from the center to each,
      and each becomes part of the center group. */
  method JoinNearest(table: map<string, Atom>, bonds: seq<Bond>, centerLabel: string, nearest: seq<string>)
    returns (t: map<string, Atom>, b: seq<Bond>)
    requires forall j :: 0 <= j < |nearest| ==> nearest[j] in table
    ensures t == Joined(table, nearest)
    ensures b == bonds + CenterBonds(centerLabel, nearest)
  {
    t, b := table, bonds;
    var j := 0;
    while j < |nearest|
      invariant 0 <= j <= |nearest|
      invariant t == Joined(table, nearest[..j])
      invariant b == bonds + CenterBonds(centerLabel, nearest[..j])
    {
      assert nearest[..j + 1] == nearest[..j] + [nearest[j]];
      b := b + [Bond(centerLabel, nearest[j])];
      var atom := t[nearest[j]];
      t := t[nearest[j] := atom.(tags := atom.tags.(partOf := "c"))];
      j := j + 1;
    }
    assert nearest[..|nearest|] == nearest;
  }

  // ---------------------------------------------------------------------
  // invert_if_neccessary and center_coordinates

  /** The loop of `invert_if_neccessary` that adds up the z of every atom. */
  method SumZ(table: map<string, Atom>, keys: seq<string>) returns (zSum: real)
    requires Covers(table, keys)
    ensures zSum == Sum(Zs(PositionsOf(table, keys)))
  {
    ghost var p := PositionsOf(table, keys);
    zSum := 0.0;
    var i := 0;
    while i < |keys|
      invariant 0 <= i <= |keys|
      invariant zSum == Sum(Zs(p[..i]))
    {
      SumZsPrefix(p, i);
      zSum := zSum + table[keys[i]].pos.z;
      i := i + 1;
    }
    assert p[..|keys|] == p;
  }

  /** The loop of `invert_if_neccessary` that switches the sign of every z. */
  method MirrorTable(table: map<string, Atom>, keys: seq<string>) returns (t: map<string, Atom>)
    requires Covers(table, keys)
    ensures OnlyMoved(table, t)
    ensures PositionsOf(t, keys) == MirrorZ(PositionsOf(table, keys))
  {
    ghost var p := PositionsOf(table, keys);
    t := table;
    var i := 0;
    while i < |keys|
      invariant 0 <= i <= |keys|
      invariant OnlyMoved(table, t)
      invariant forall k :: 0 <= k < i ==> t[keys[k]].pos == Vec3(p[k].x, p[k].y, -p[k].z)
      invariant forall k :: i <= k < |keys| ==> t[keys[k]].pos == p[k]
    {
      var atom := t[keys[i]];
      var z := atom.pos.z;
      if z < 0.0 {
        z := Abs(z);
      } else if z > 0.0 {
        z := z - 2.0 * z;
      }
      t := t[keys[i] := atom.(pos := atom.pos.(z := z))];
      i := i + 1;
    }
    forall k | 0 <= k < |keys|
      ensures PositionsOf(t, keys)[k] == MirrorZ(p)[k]
    {
      MirrorZAt(p, k);
    }
  }

  /** The loop of `center_coordinates`: every atom except the one under
      `skip` is shifted by `move`. */
  method ShiftTable(table: map<string, Atom>, keys: seq<string>, skip: Option<string>, move: Vec3) returns (t: map<string, Atom>)
    requires Covers(table, keys)
    ensures OnlyMoved(table, t)
    ensures forall k :: 0 <= k < |keys| ==>
      t[keys[k]].pos == if skip == Some(keys[k]) then table[keys[k]].pos else Add(table[keys[k]].pos, move)
  {
    t := table;
    var i := 0;
    while i < |keys|
      invariant 0 <= i <= |keys|
      invariant OnlyMoved(table, t)
      invariant forall k :: 0 <= k < i ==>
        t[keys[k]].pos == if skip == Some(keys[k]) then table[keys[k]].pos else Add(table[keys[k]].pos, move)
      invariant forall k :: i <= k < |keys| ==> t[keys[k]].pos == table[keys[k]].pos
    {
      if skip != Some(keys[i]) {
        var atom := t[keys[i]];
        t := t[keys[i] := atom.(pos := Add(atom.pos, move))];
      }
      i := i + 1;
    }
  }

  /** The minus of a position: the move that takes it to the origin. */
  function Negated(p: Vec3): (r: Vec3)
    ensures Add(p, r) == Origin
  {
    Vec3(-p.x, -p.y, -p.z)
  }

  /** The coordinates `center_coordinates` leaves: with the center stored
      in the dictionary, the translation that takes it to the origin; with
      a detached center, every atom of the dictionary moved by minus the
      detached atom's coordinates. */
  function CenteredPositions(table: map<string, Atom>, keys: seq<string>, center: Center): (r: seq<Vec3>)
    requires forall i :: 0 <= i < |keys| ==> keys[i] in table
    requires center.Stored? ==> center.key in keys
    ensures |r| == |keys|
  {
    match center
    case NoCenter => PositionsOf(table, keys)
    case Stored(k) => PerformTranslation(PositionsOf(table, keys), IndexOf(keys, k).value)
    case Detached(a) => TranslateAll(PositionsOf(table, keys), Negated(a.pos))
  }

  /** Shifting every atom but the center by minus the center's
      coordinates, and setting the center to the origin, is the translation
      of the block. */
  lemma ShiftedIsTranslation(table: map<string, Atom>, t: map<string, Atom>, keys: seq<string>, key: string)
    requires Covers(table, keys) && key in table && OnlyMoved(table, t)
    requires forall k :: 0 <= k < |keys| ==>
      t[keys[k]].pos == if keys[k] == key then Origin else Add(table[keys[k]].pos, Negated(table[key].pos))
    ensures PositionsOf(t, keys) == PerformTranslation(PositionsOf(table, keys), IndexOf(keys, key).value)
  {
    var c := table[key].pos;
    var before, after := PositionsOf(table, keys), PositionsOf(t, keys);
    var index := IndexOf(keys, key).value;
    assert before[index] == c;
    var moved := PerformTranslation(before, index);
    forall k | 0 <= k < |keys|
      ensures after[k] == moved[k]
    {
      PerformTranslationAt(before, index, k);
    }
  }

  /** Centering moves every atom of the dictionary by the same vector, so
      the differences between atoms are kept; a center stored in the
      dictionary lands on the origin. */
  lemma CenteredKeepsDifferences(table: map<string, Atom>, keys: seq<string>, center: Center, i: nat, j: nat)
    requires forall k :: 0 <= k < |keys| ==> keys[k] in table
    requires center.Stored? ==> center.key in keys
    requires i < |keys| && j < |keys|
    ensures var r, p := CenteredPositions(table, keys, center), PositionsOf(table, keys);
      Sub(r[i], r[j]) == Sub(p[i], p[j])
    ensures center.Stored? ==> CenteredPositions(table, keys, center)[IndexOf(keys, center.key).value] == Origin
  {
    var p := PositionsOf(table, keys);
    match center {
      case NoCenter =>
      case Stored(k) =>
        var index := IndexOf(keys, k).value;
        PerformTranslationKeepsDifferences(p, index, i, j);
      case Detached(a) =>
        TranslateAllAt(p, Negated(a.pos), i);
        TranslateAllAt(p, Negated(a.pos), j);
        TranslationKeepsDifferences(p[i], p[j], Negated(a.pos));
    }
  }

  /** `attached_atoms` orders the atoms of the dictionary by their
      distance to the center: every key once, distances never decreasing. */
  lemma AttachedSorted(table: map<string, Atom>, keys: seq<string>)
    requires Covers(table, keys) && AllMeasured(table)
    ensures multiset(Attached(table, keys)) == multiset(keys)
    ensures forall i, j :: 0 <= i < j < |keys| ==>
      Attached(table, keys)[i] in table && Attached(table, keys)[j] in table &&
      table[Attached(table, keys)[i]].tags.distanceToCenter.value <= table[Attached(table, keys)[j]].tags.distanceToCenter.value
  {
    var s := Scores(table, keys);
    var sorted := SortByScore(s);
    SortedScores(s);
    SortKeepsItems(s);
    assert Items(s) == keys;
    ScoresFound(table, keys, sorted);
  }

  /** Sorting orders the scores and keeps them. */
  lemma SortedScores<T>(s: seq<Scored<T>>)
    ensures Ascending(SortByScore(s)) && multiset(SortByScore(s)) == multiset(s)
  {
    SortByScoreSpec(s);
  }

  /** Every entry of a reordering of the scores names an atom and carries
      its distance. */
  lemma ScoresFound(table: map<string, Atom>, keys: seq<string>, sorted: seq<Scored<string>>)
    requires forall i :: 0 <= i < |keys| ==> keys[i] in table && table[keys[i]].tags.distanceToCenter.Some?
    requires multiset(sorted) == multiset(Scores(table, keys))
    ensures forall i :: 0 <= i < |sorted| ==>
      sorted[i].item in table && table[sorted[i].item].tags.distanceToCenter == Some(sorted[i].score)
  {
    var s := Scores(table, keys);
    forall i | 0 <= i < |sorted|
      ensures sorted[i].item in table && table[sorted[i].item].tags.distanceToCenter == Some(sorted[i].score)
    {
      assert sorted[i] in multiset(s);
      var k :| 0 <= k < |s| && s[k] == sorted[i];
    }
  }

  /** The atom `center_atom` refers to. */
  function CenterAtom(table: map<string, Atom>, center: Center): Atom
    requires center.Stored? ==> center.key in table
    requires !center.NoCenter?
  {
    if center.Stored? then table[center.key] else center.atom
  }

  class Fragment {
    const fromEntry: string
    const fragmentId: string
    const color: string
    var atoms: map<string, Atom>
    /** The keys of `atoms` in insertion order, the order of `atoms.values()`. */
    var order: seq<string>
    var bonds: seq<Bond>
    var center: Center
    /** The keys of `attached_atoms`, once measured. */
    var attachedAtoms: seq<string>

    /** `order` lists every key once, every atom is stored under its own
        label, and a center in the dictionary is one `set_center` chose:
        at distance 0. */
    ghost predicate Valid()
      reads this
    {
      Covers(atoms, order) && Keyed(atoms) &&
      (center.Stored? ==> center.key in atoms && atoms[center.key].tags.distanceToCenter == Some(0.0))
    }

    /** `Fragment(from_entry, fragment_id)`: no atoms, no bonds, drawn in
        red, no center yet. */
    constructor (fromEntry: string, fragmentId: string)
      ensures Valid()
      ensures this.fromEntry == fromEntry && this.fragmentId == fragmentId && color == "red"
      ensures atoms == map[] && order == [] && bonds == [] && center == NoCenter && attachedAtoms == []
    {
      this.fromEntry := fromEntry;
      this.fragmentId := fragmentId;
      color := "red";
      atoms, order, bonds := map[], [], [];
      center, attachedAtoms := NoCenter, [];
    }

    /** `add_atom`: the atom is stored under its label, replacing an atom
        stored there before, and a new label goes to the end of the order.
        When the replaced atom was the center, the center reference keeps
        it outside the dictionary. */
    method AddAtom(atom: Atom)
      requires Valid()
      modifies this
      ensures Valid() && bonds == old(bonds) && attachedAtoms == old(attachedAtoms)
      ensures atoms == old(atoms)[atom.tags.name := atom]
      ensures order == if atom.tags.name in old(atoms) then old(order) else old(order) + [atom.tags.name]
      ensures center == if old(center) == Stored(atom.tags.name) then Detached(old(atoms)[atom.tags.name]) else old(center)
    {
      var name := atom.tags.name;
      if name !in atoms {
        DistinctAppend(order, name);
        order := order + [name];
      }
      if center == Stored(name) {
        center := Detached(atoms[name]);
      }
      atoms := atoms[name := atom];
    }

    /** `add_bond`: one more bond at the end. */
    method AddBond(bond: Bond)
      modifies this
      ensures bonds == old(bonds) + [bond]
      ensures atoms == old(atoms) && order == old(order) && center == old(center) && attachedAtoms == old(attachedAtoms)
    {
      bonds := bonds + [bond];
    }

    /** `set_center`: every atom whose label contains `atomType` gets
        distance 0 and becomes part of the center; the last of them becomes
        the center.  Without a match the center stays what it was. */
    method SetCenter(atomType: string)
      requires Valid()
      modifies this
      ensures Valid() && order == old(order) && bonds == old(bonds) && attachedAtoms == old(attachedAtoms)
      ensures atoms == Marked(old(atoms), atomType)
      ensures center == Chosen(old(atoms), order, atomType, old(center))
    {
      atoms, center := MarkTable(atoms, order, atomType, center);
    }

    /** `find_bonds_NO3_and_distances`: every atom but the center gets its
        distance to the center; `attached_atoms` is the atoms sorted by that
        distance; the center is bonded to `attached_atoms[1:4]`, which join
        the center group; and `attached_atoms[4]` is bonded to
        `attached_atoms[5]`, which fails for fewer than six atoms after the
        rest is done.  Without a center the first atom fails on the missing
        attribute; a fragment without atoms never looks at the center, sorts
        nothing and fails on `attached_atoms[4]`. */
    method FindBondsAndDistances(sqrt: real -> real) returns (r: Result<()>)
      requires Valid()
      modifies this
      ensures Valid() && order == old(order) && center == old(center)
      ensures r.Err? <==> old(center).NoCenter? || |order| < 6
      ensures old(center).NoCenter? && order != [] ==>
        r == Err(NoCenterAttribute) && atoms == old(atoms) && bonds == old(bonds) && attachedAtoms == old(attachedAtoms)
      ensures old(center).NoCenter? && order == [] ==>
        r == Err(IndexOutOfRange) && atoms == old(atoms) && bonds == old(bonds) && attachedAtoms == []
      ensures !old(center).NoCenter? ==>
        attachedAtoms == Attached(MeasuredFor(old(atoms), old(center), sqrt), order) &&
        atoms == Joined(MeasuredFor(old(atoms), old(center), sqrt), Nearest(attachedAtoms)) &&
        bonds == old(bonds) + CenterBonds(CenterAtom(old(atoms), old(center)).tags.name, Nearest(attachedAtoms)) +
                 (if |order| < 6 then [] else [Bond(attachedAtoms[4], attachedAtoms[5])])
    {
      if center.NoCenter? {
        if order == [] {
          attachedAtoms := [];
          return Err(IndexOutOfRange);
        }
        return Err(NoCenterAttribute);
      }
      var joined, b, attached := MeasureAndJoin(atoms, order, center, bonds, sqrt);
      atoms, bonds, attachedAtoms := joined, b, attached;
      if |attached| < 6 {
        return Err(IndexOutOfRange);
      }
      bonds := bonds + [Bond(attached[4], attached[5])];
      r := Ok(());
    }

    /** `find_atoms_for_plane`: measures and bonds as above, then gives
        `attached_atoms[1:3]`, the two atoms nearest the center after the
        first. */
    method FindAtomsForPlane(sqrt: real -> real) returns (r: Result<seq<string>>)
      requires Valid()
      modifies this
      ensures Valid()
      ensures r.Err? <==> old(center).NoCenter? || |order| < 6
      ensures r.Ok? ==> |attachedAtoms| == |order| && r.value == [attachedAtoms[1], attachedAtoms[2]]
    {
      var done := FindBondsAndDistances(sqrt);
      if done.Err? {
        return Err(done.error);
      }
      assert |attachedAtoms| == |order|;
      r := Ok([attachedAtoms[1], attachedAtoms[2]]);
    }

    /** The mean z of the atoms, or the division by zero of a fragment
        without atoms. */
    method MeanZ() returns (r: Result<real>)
      requires Valid()
      ensures r.Err? <==> |atoms| == 0
      ensures r.Ok? ==> r.value == Mean(PositionsOf(atoms, order)).z
    {
      var zSum := SumZ(atoms, order);
      CoversCount(atoms, order);
      if |atoms| == 0 {
        return Err(DivisionByZero);
      }
      var n := |atoms| as real;
      r := Ok(zSum / n);
      ScaledZ(SumRows(PositionsOf(atoms, order)), n, Mean(PositionsOf(atoms, order)), zSum);
    }

    /** `invert_if_neccessary`: when the mean z of the atoms is negative,
        every z is negated; otherwise nothing changes.  An atom outside the
        dictionary (a detached center) is not touched. */
    method InvertIfNecessary() returns (r: Result<()>)
      requires Valid()
      modifies this
      ensures Valid() && order == old(order) && center == old(center) && bonds == old(bonds)
      ensures r.Err? <==> |order| == 0
      ensures OnlyMoved(old(atoms), atoms)
      ensures PositionsOf(atoms, order) == MirrorIfNeeded(PositionsOf(old(atoms), old(order)))
    {
      var zMean := MeanZ();
      CoversCount(atoms, order);
      if zMean.Err? {
        return Err(zMean.error);
      }
      NegativeMeanZIsMean(PositionsOf(atoms, order));
      if zMean.value < 0.0 {
        atoms := MirrorTable(atoms, order);
      }
      r := Ok(());
    }

    /** `center_coordinates`: the center atom goes to the origin and every
        other atom of the dictionary is moved by minus the center's old
        coordinates; without a center nothing moves. */
    method CenterCoordinates() returns (r: Result<()>)
      requires Valid()
      modifies this
      ensures Valid() && order == old(order) && bonds == old(bonds)
      ensures r.Err? <==> old(center).NoCenter?
      ensures OnlyMoved(old(atoms), atoms)
      ensures PositionsOf(atoms, order) == CenteredPositions(old(atoms), old(order), old(center))
      ensures center == if old(center).Detached? then Detached(old(center).atom.(pos := Origin)) else old(center)
      ensures !center.NoCenter? ==> CenterAtom(atoms, center).pos == Origin
    {
      match center {
        case NoCenter =>
          return Err(NoCenterAttribute);
        case Stored(key) =>
          var c := atoms[key];
          var t0 := atoms[key := c.(pos := Origin)];
          var t := ShiftTable(t0, order, Some(key), Negated(c.pos));
          ShiftedIsTranslation(atoms, t, order, key);
          atoms := t;
        case Detached(a) =>
          var t := ShiftTable(atoms, order, None, Negated(a.pos));
          TranslateAllPointwise(PositionsOf(atoms, order), PositionsOf(t, order), Negated(a.pos));
          atoms, center := t, Detached(a.(pos := Origin));
      }
      r := Ok(());
    }
  }

  /** The body of `find_bonds_NO3_and_distances` up to the last bond: the
      distances to the center, the sorted keys, and the bonds to the three
      nearest atoms, which join the center group. */
  method MeasureAndJoin(table: map<string, Atom>, keys: seq<string>, center: Center, bonds: seq<Bond>, sqrt: real -> real)
    returns (joined: map<string, Atom>, b: seq<Bond>, attached: seq<string>)
    requires Covers(table, keys) && Keyed(table) && !center.NoCenter?
    requires center.Stored? ==> center.key in table && table[center.key].tags.distanceToCenter == Some(0.0)
    ensures attached == Attached(MeasuredFor(table, center, sqrt), keys) && |attached| == |keys|
    ensures joined == Joined(MeasuredFor(table, center, sqrt), Nearest(attached))
    ensures b == bonds + CenterBonds(CenterAtom(table, center).tags.name, Nearest(attached))
    ensures Covers(joined, keys) && Keyed(joined)
    ensures center.Stored? ==> center.key in joined && joined[center.key].tags.distanceToCenter == Some(0.0)
  {
    var c := CenterAtom(table, center);
    var skip := if center.Stored? then Some(center.key) else None;
    var measured := MeasureTable(table, keys, skip, c.pos, sqrt);
    assert measured == MeasuredFor(table, center, sqrt);
    MeasuredNearest(table, keys, center, sqrt, measured);
    attached := Attached(measured, keys);
    var nearest := Nearest(attached);
    joined, b := JoinNearest(measured, bonds, c.tags.name, nearest);
    JoinedValid(table, keys, center, sqrt, measured, nearest, joined);
  }

  /** The sorted keys are the keys of the dictionary, so every one of them
      names an atom. */
  lemma SortedKeysStored(table: map<string, Atom>, keys: seq<string>)
    requires Covers(table, keys) && AllMeasured(table)
    ensures forall j :: 0 <= j < |Attached(table, keys)| ==> Attached(table, keys)[j] in table
  {
    var s := Scores(table, keys);
    SortByScoreSpec(s);
    forall j | 0 <= j < |Attached(table, keys)|
      ensures Attached(table, keys)[j] in table
    {
      var e := SortByScore(s)[j];
      assert e in multiset(s);
      var i :| 0 <= i < |s| && s[i] == e;
    }
  }

  /** The atoms after the distance loop of a fragment with a center. */
  ghost function MeasuredFor(table: map<string, Atom>, center: Center, sqrt: real -> real): (r: map<string, Atom>)
    requires center.Stored? ==> center.key in table
    requires !center.NoCenter?
  {
    Measured(table, if center.Stored? then Some(center.key) else None, CenterAtom(table, center).pos, sqrt)
  }

  /** After measuring every atom has a distance, the keys stay, and the
      nearest atoms are atoms of the fragment. */
  lemma MeasuredNearest(table: map<string, Atom>, keys: seq<string>, center: Center, sqrt: real -> real, m: map<string, Atom>)
    requires Covers(table, keys) && !center.NoCenter?
    requires center.Stored? ==> center.key in table && table[center.key].tags.distanceToCenter == Some(0.0)
    requires m == MeasuredFor(table, center, sqrt)
    ensures AllMeasured(m) && Covers(m, keys)
    ensures forall j :: 0 <= j < |Nearest(Attached(m, keys))| ==> Nearest(Attached(m, keys))[j] in m
  {
    assert AllMeasured(m);
    SortedKeysStored(m, keys);
  }

  /** Measuring and joining change only distances and parts: the keys, the
      labels and the center's distance 0 stay. */
  lemma JoinedValid(table: map<string, Atom>, keys: seq<string>, center: Center, sqrt: real -> real,
                    m: map<string, Atom>, nearest: seq<string>, joined: map<string, Atom>)
    requires Covers(table, keys) && Keyed(table) && !center.NoCenter?
    requires center.Stored? ==> center.key in table && table[center.key].tags.distanceToCenter == Some(0.0)
    requires m == MeasuredFor(table, center, sqrt) && joined == Joined(m, nearest)
    ensures Covers(joined, keys) && Keyed(joined)
    ensures center.Stored? ==> center.key in joined && joined[center.key].tags.distanceToCenter == Some(0.0)
  {
  }
}
