/** The object model of the loading scripts (`code/classes/Atom.py`,
    `code/classes/Fragment.py`, `code/helpers/rotation_helpers.py`): atoms
    with a label, an element symbol, coordinates and flags, and fragments
    that hold their atoms in a dictionary keyed by label.  A Python
    dictionary remembers the order in which its keys were first inserted;
    `order` records that order.  Atoms are values here: a fragment owns the
    atoms it stores, and changing an atom means storing the changed value
    under its key. */
module Fragments {
  import opened Wrappers
  import opened Lists
  import opened Reals
  import opened Vectors
  import opened UniqueLabels
  import opened Blocks
  import opened AlignmentHelpers

  /** What an atom carries besides its coordinates: its label (`label` in
      the scripts), the element symbol derived from it, the `lablabel`
      column, the central-group flag and the attributes the setters add
      later. */
  datatype AtomProps = AtomProps(
    name: string,
    symbol: string,
    lablabel: string,
    inCentralGroup: bool,
    color: Option<string>,
    fragmentId: Option<string>,
    vdwRadius: Option<real>,
    covRadius: Option<real>)

  /** An atom: its properties and its coordinates (`x`, `y`, `z`). */
  datatype Atom = Atom(props: AtomProps, pos: Vec3)

  /** `Atom(label, coordinates)`: the symbol is the first character of the
      label when its second character is a digit and the first two
      otherwise, so the label needs two characters. */
  function NewAtom(name: string, coordinates: Vec3): (a: Atom)
    requires |name| >= 2
    ensures a.props.name == name && a.pos == coordinates
    ensures a.props.symbol == name[..1] <==> name[1] in "0123456789"
    ensures a.props.symbol == name[..1] || a.props.symbol == name[..2]
    ensures a.props.lablabel == "-" && !a.props.inCentralGroup
    ensures a.props.color.None? && a.props.fragmentId.None?
    ensures a.props.vdwRadius.None? && a.props.covRadius.None?
  {
    Atom(AtomProps(name, GetAtomSymbol(name), "-", false, None, None, None, None), coordinates)
  }

  /** `add_to_central_group`: sets the flag and nothing else. */
  function AddToCentralGroup(a: Atom): (r: Atom)
    ensures r.props.inCentralGroup
    ensures a.props.inCentralGroup ==> r == a
    ensures r.pos == a.pos && r.props == a.props.(inCentralGroup := r.props.inCentralGroup)
  {
    a.(props := a.props.(inCentralGroup := true))
  }

  /** `set_color`: only the colour changes. */
  function SetColor(a: Atom, color: string): (r: Atom)
    ensures r.props.color == Some(color)
    ensures r.pos == a.pos && r.props == a.props.(color := r.props.color)
  {
    a.(props := a.props.(color := Some(color)))
  }

  /** `add_fragment_id`: only the fragment id changes. */
  function AddFragmentId(a: Atom, fragmentId: string): (r: Atom)
    ensures r.props.fragmentId == Some(fragmentId)
    ensures r.pos == a.pos && r.props == a.props.(fragmentId := r.props.fragmentId)
  {
    a.(props := a.props.(fragmentId := Some(fragmentId)))
  }

  /** `set_vdw_radius`: only the van der Waals radius changes. */
  function SetVdwRadius(a: Atom, radius: real): (r: Atom)
    ensures r.props.vdwRadius == Some(radius)
    ensures r.pos == a.pos && r.props == a.props.(vdwRadius := r.props.vdwRadius)
  {
    a.(props := a.props.(vdwRadius := Some(radius)))
  }

  /** `set_cov_radius`: only the covalent radius changes. */
  function SetCovRadius(a: Atom, radius: real): (r: Atom)
    ensures r.props.covRadius == Some(radius)
    ensures r.pos == a.pos && r.props == a.props.(covRadius := r.props.covRadius)
  {
    a.(props := a.props.(covRadius := Some(radius)))
  }

  /** `after` holds the atoms of `before` under the same labels, changed
      at most in their coordinates. */
  ghost predicate OnlyMoved(before: map<string, Atom>, after: map<string, Atom>)
  {
    after.Keys == before.Keys && forall k :: k in after ==> after[k] == before[k].(pos := after[k].pos)
  }

  /** Moves compose: only coordinates change across several of them. */
  lemma OnlyMovedTrans(a: map<string, Atom>, b: map<string, Atom>, c: map<string, Atom>)
    requires OnlyMoved(a, b) && OnlyMoved(b, c)
    ensures OnlyMoved(a, c)
  {
  }

  /** The coordinates of the atoms stored under `keys`, in that order. */
  function PositionsOf(atoms: map<string, Atom>, keys: seq<string>): (r: seq<Vec3>)
    requires forall i :: 0 <= i < |keys| ==> keys[i] in atoms
    ensures |r| == |keys|
    ensures forall i :: 0 <= i < |keys| ==> r[i] == atoms[keys[i]].pos
  {
    seq(|keys|, i requires 0 <= i < |keys| => atoms[keys[i]].pos)
  }

  /** `check_if_label_exists(atom, fragment)` of
      `code/helpers/general_helpers.py`: appends 'a' to the atom's label
      until no atom of the fragment is stored under it; nothing else of the
      atom changes. */
  function CheckIfLabelExists(atom: Atom, atoms: map<string, Atom>): (r: Atom)
    ensures r == atom.(props := atom.props.(name := r.props.name))
    ensures r.props.name == FreeLabel(atom.props.name, atoms.Keys)
    ensures r.props.name !in atoms
    decreases |Longer(atoms.Keys, |atom.props.name|)|
  {
    if atom.props.name in atoms then
      LongerShrinks(atoms.Keys, atom.props.name);
      CheckIfLabelExists(atom.(props := atom.props.(name := atom.props.name + "a")), atoms)
    else
      atom
  }

  /** `keys` lists every key of `table` exactly once: the dictionary and
      its insertion order. */
  ghost predicate Covers(table: map<string, Atom>, keys: seq<string>)
  {
    Distinct(keys) && forall k :: k in table <==> k in keys
  }

  /** The loop of `invert_if_neccessary` that adds up the z of every atom. */
  method SumZ(table: map<string, Atom>, keys: seq<string>) returns (zSum: real)
    requires Covers(table, keys)
    ensures zSum == Sum(Zs(PositionsOf(table, keys)))
  {
    ghost var p := PositionsOf(table, keys);
    zSum := 0.0;
    var i := 0;
    while i < |keys|
      invariant 0 <= i <= |keys|
      invariant zSum == Sum(Zs(p[..i]))
    {
      SumZsPrefix(p, i);
      zSum := zSum + table[keys[i]].pos.z;
      i := i + 1;
    }
    assert p[..|keys|] == p;
  }

  /** The loop of `invert_if_neccessary` that switches the sign of every z:
      a negative z becomes its absolute value, a positive one `z - 2z`, a
      zero stays. */
  method MirrorTable(table: map<string, Atom>, keys: seq<string>) returns (t: map<string, Atom>)
    requires Covers(table, keys)
    ensures OnlyMoved(table, t)
    ensures PositionsOf(t, keys) == MirrorZ(PositionsOf(table, keys))
  {
    ghost var p := PositionsOf(table, keys);
    t := table;
    var i := 0;
    while i < |keys|
      invariant 0 <= i <= |keys|
      invariant OnlyMoved(table, t)
      invariant forall k :: 0 <= k < i ==> t[keys[k]].pos == Vec3(p[k].x, p[k].y, -p[k].z)
      invariant forall k :: i <= k < |keys| ==> t[keys[k]].pos == p[k]
    {
      var atom := t[keys[i]];
      var z := atom.pos.z;
      if z < 0.0 {
        z := Abs(z);
      } else if z > 0.0 {
        z := z - 2.0 * z;
      }
      t := t[keys[i] := atom.(pos := atom.pos.(z := z))];
      i := i + 1;
    }
    forall k | 0 <= k < |keys|
      ensures PositionsOf(t, keys)[k] == MirrorZ(p)[k]
    {
      MirrorZAt(p, k);
    }
  }

  /** The loop of `center_coordinates`: every atom except the one under
      `skip` is shifted by `move`. */
  method ShiftOthers(table: map<string, Atom>, keys: seq<string>, skip: string, move: Vec3) returns (t: map<string, Atom>)
    requires Covers(table, keys)
    ensures OnlyMoved(table, t)
    ensures forall k :: 0 <= k < |keys| ==>
      t[keys[k]].pos == if keys[k] == skip then table[keys[k]].pos else Add(table[keys[k]].pos, move)
  {
    t := table;
    var i := 0;
    while i < |keys|
      invariant 0 <= i <= |keys|
      invariant OnlyMoved(table, t)
      invariant forall k :: 0 <= k < i ==>
        t[keys[k]].pos == if keys[k] == skip then table[keys[k]].pos else Add(table[keys[k]].pos, move)
      invariant forall k :: i <= k < |keys| ==> t[keys[k]].pos == table[keys[k]].pos
    {
      if keys[i] != skip {
        var atom := t[keys[i]];
        t := t[keys[i] := atom.(pos := Add(atom.pos, move))];
      }
      i := i + 1;
    }
  }

  /** The moves of `center_coordinates`: the atom under `centerLabel` is set
      to the origin and every other atom is shifted by minus its old
      coordinates. */
  method ShiftTable(table: map<string, Atom>, keys: seq<string>, centerLabel: string) returns (t: map<string, Atom>)
    requires Covers(table, keys) && centerLabel in table
    ensures OnlyMoved(table, t)
    ensures PositionsOf(t, keys) == PerformTranslation(PositionsOf(table, keys), IndexOf(keys, centerLabel).value)
    ensures t[centerLabel].pos == Origin
  {
    var center := table[centerLabel];
    var move := Vec3(-center.pos.x, -center.pos.y, -center.pos.z);
    var t0 := table[centerLabel := center.(pos := Origin)];
    t := ShiftOthers(t0, keys, centerLabel, move);
    OnlyMovedTrans(table, t0, t);
    ShiftedIsTranslation(table, t, keys, centerLabel);
  }

  /** Shifting every atom but the center by minus the center's coordinates,
      and setting the center to the origin, is the translation of the block. */
  lemma ShiftedIsTranslation(table: map<string, Atom>, t: map<string, Atom>, keys: seq<string>, centerLabel: string)
    requires Covers(table, keys) && centerLabel in table && OnlyMoved(table, t)
    requires forall k :: 0 <= k < |keys| ==>
      t[keys[k]].pos == if keys[k] == centerLabel then Origin
                        else Add(table[keys[k]].pos, Vec3(-table[centerLabel].pos.x, -table[centerLabel].pos.y, -table[centerLabel].pos.z))
    ensures PositionsOf(t, keys) == PerformTranslation(PositionsOf(table, keys), IndexOf(keys, centerLabel).value)
  {
    var c := table[centerLabel].pos;
    var move := Vec3(-c.x, -c.y, -c.z);
    var before, after := PositionsOf(table, keys), PositionsOf(t, keys);
    var index := IndexOf(keys, centerLabel).value;
    assert before[index] == c;
    var moved := PerformTranslation(before, index);
    forall k | 0 <= k < |keys|
      ensures after[k] == moved[k]
    {
      PerformTranslationAt(before, index, k);
      if keys[k] == centerLabel {
        assert Add(c, move) == Origin;
      }
    }
  }

  /** The loop of `calculate_rotation`: every atom's coordinates are
      multiplied by the rotation matrix of `ax`. */
  method RotateTable(table: map<string, Atom>, keys: seq<string>, rot: Rotation, ax: Axis) returns (t: map<string, Atom>)
    requires Covers(table, keys)
    ensures OnlyMoved(table, t)
    ensures PositionsOf(t, keys) == RotateAll(PositionsOf(table, keys), ax, rot)
  {
    ghost var p := PositionsOf(table, keys);
    var m := RotationMatrix(ax, rot);
    t := table;
    var i := 0;
    while i < |keys|
      invariant 0 <= i <= |keys|
      invariant OnlyMoved(table, t)
      invariant forall k :: 0 <= k < i ==> t[keys[k]].pos == Rotate(p[k], ax, rot)
      invariant forall k :: i <= k < |keys| ==> t[keys[k]].pos == p[k]
    {
      var atom := t[keys[i]];
      VecMatRotate(atom.pos, ax, rot);
      t := t[keys[i] := atom.(pos := VecMat(atom.pos, m))];
      i := i + 1;
    }
    forall k | 0 <= k < |keys|
      ensures PositionsOf(t, keys)[k] == RotateAll(p, ax, rot)[k]
    {
      RotateAllAt(p, ax, rot, k);
    }
  }

  /** A dictionary without repetitions in its order has as many entries as
      its order (`len(self.atoms)`). */
  lemma CoversCount(table: map<string, Atom>, keys: seq<string>)
    requires Covers(table, keys)
    ensures |table| == |keys|
  {
    DistinctElements(keys);
    assert table.Keys == set k | k in keys;
  }

  class Fragment {
    const fromEntry: string
    const id: string
    /** The drawing colour of the fragment. */
    const color: string
    var atoms: map<string, Atom>
    /** The keys of `atoms` in insertion order, the order of `atoms.values()`. */
    var order: seq<string>
    /** The key of the atom `center_coordinates` last put at the origin. */
    var centerAtom: Option<string>

    /** `order` lists every key of `atoms` exactly once. */
    ghost predicate Valid()
      reads this
    {
      Covers(atoms, order)
    }

    /** `Fragment(from_entry, fragment_id)`: the id is the entry followed by
        the fragment number; there are no atoms yet. */
    constructor (fromEntry: string, fragmentId: string)
      ensures this.fromEntry == fromEntry && id == fromEntry + fragmentId && color == "red"
      ensures atoms == map[] && order == [] && centerAtom.None?
      ensures Valid()
    {
      this.fromEntry := fromEntry;
      id := fromEntry + fragmentId;
      color := "red";
      atoms := map[];
      order := [];
      centerAtom := None;
    }

    /** `add_atom`: the atom is stored under its label, replacing an atom
        stored there before; a new label goes to the end of the order. */
    method AddAtom(atom: Atom)
      requires Valid()
      modifies this
      ensures Valid()
      ensures atoms == old(atoms)[atom.props.name := atom]
      ensures order == if atom.props.name in old(atoms) then old(order) else old(order) + [atom.props.name]
      ensures centerAtom == old(centerAtom)
    {
      if atom.props.name !in atoms {
        order := order + [atom.props.name];
      }
      atoms := atoms[atom.props.name := atom];
    }

    /** `define_central_group` with `add_to_central_group` of the atom: the
        atom under `name` gets the central-group flag; nothing else changes. */
    method DefineCentralGroup(name: string)
      requires Valid()
      modifies this
      ensures Valid() && order == old(order) && centerAtom == old(centerAtom)
      ensures atoms.Keys == old(atoms).Keys
      ensures name in atoms ==> atoms == old(atoms)[name := AddToCentralGroup(old(atoms)[name])]
      ensures name !in atoms ==> atoms == old(atoms)
    {
      if name in atoms {
        atoms := atoms[name := AddToCentralGroup(atoms[name])];
      }
    }

    /** The mean z of the atoms: the sum divided by the number of atoms (a
        fragment without atoms divides by zero). */
    method MeanZ() returns (zMean: real)
      requires Valid() && |atoms| >= 1
      ensures zMean == Mean(PositionsOf(atoms, order)).z
    {
      var zSum := SumZ(atoms, order);
      CoversCount(atoms, order);
      var n := |atoms| as real;
      zMean := zSum / n;
      ScaledZ(SumRows(PositionsOf(atoms, order)), n, Mean(PositionsOf(atoms, order)), zSum);
    }

    /** `invert_if_neccessary`: when the mean z of the atoms is negative,
        every z is negated; otherwise nothing changes. */
    method InvertIfNecessary()
      requires Valid() && |atoms| >= 1
      modifies this
      ensures Valid() && order == old(order) && centerAtom == old(centerAtom)
      ensures OnlyMoved(old(atoms), atoms)
      ensures PositionsOf(atoms, order) == MirrorIfNeeded(PositionsOf(old(atoms), old(order)))
    {
      var zMean := MeanZ();
      NegativeMeanZIsMean(PositionsOf(atoms, order));
      if zMean < 0.0 {
        atoms := MirrorTable(atoms, order);
      }
    }

    /** `center_coordinates`: the atom under `centerLabel` becomes the
        center atom and is put at the origin; every other atom is shifted by
        minus its coordinates, so every atom moves by the same vector.  A
        missing label raises `KeyError`. */
    method CenterCoordinates(centerLabel: string)
      requires Valid() && centerLabel in atoms
      modifies this
      ensures Valid() && order == old(order) && centerAtom == Some(centerLabel)
      ensures OnlyMoved(old(atoms), atoms)
      ensures PositionsOf(atoms, order) ==
        PerformTranslation(PositionsOf(old(atoms), old(order)), IndexOf(order, centerLabel).value)
      ensures atoms[centerLabel].pos == Origin
    {
      var t := ShiftTable(atoms, order, centerLabel);
      atoms, centerAtom := t, Some(centerLabel);
    }

    /** `calculate_rotation` of `code/helpers/rotation_helpers.py`. */
    method CalculateRotation(rot: Rotation, ax: Axis)
      requires Valid()
      modifies this
      ensures Valid() && order == old(order) && centerAtom == old(centerAtom)
      ensures OnlyMoved(old(atoms), atoms)
      ensures PositionsOf(atoms, order) == RotateAll(PositionsOf(old(atoms), old(order)), ax, rot)
    {
      atoms := RotateTable(atoms, order, rot, ax);
    }

    /** `perform_rotations(fragment, [first, second])` of
        `code/helpers/rotation_helpers.py`: about z and then y by the angle of
        the atom under `first`, then about x by the angle of the atom under
        `second`.  A missing label raises `KeyError`. */
    method PerformRotations(first: string, second: string, sqrt: real -> real)
      requires Valid() && first in atoms && second in atoms
      modifies this
      ensures Valid() && order == old(order) && centerAtom == old(centerAtom)
      ensures OnlyMoved(old(atoms), atoms)
      ensures PositionsOf(atoms, order) == PerformRotationsSpec(PositionsOf(old(atoms), old(order)),
        IndexOf(order, first).value, IndexOf(order, second).value, sqrt)
    {
      ghost var a0, p0 := atoms, PositionsOf(atoms, order);
      ghost var f, s := IndexOf(order, first).value, IndexOf(order, second).value;
      assert p0[f] == atoms[first].pos;
      CalculateRotation(AngleRotation(Z, atoms[first].pos, sqrt), Z);
      ghost var a1, p1 := atoms, PositionsOf(atoms, order);
      assert p1[f] == atoms[first].pos;
      CalculateRotation(AngleRotation(Y, atoms[first].pos, sqrt), Y);
      ghost var a2, p2 := atoms, PositionsOf(atoms, order);
      assert p2[s] == atoms[second].pos;
      CalculateRotation(AngleRotation(X, atoms[second].pos, sqrt), X);
      OnlyMovedTrans(a0, a1, a2);
      OnlyMovedTrans(a0, a2, atoms);
      PerformRotationsSteps(p0, f, s, sqrt);
    }
  }
}
