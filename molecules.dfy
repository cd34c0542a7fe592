/** `helpers/Molecule.py`: a molecule is the list of all atoms read for a
    structure and the fragments cut out of it.  A fragment receives copies
    of the atoms it names, so centring one fragment never moves an atom of
    another fragment or of `all_atoms`; with atoms as values, copying is
    what storing an atom does. */
module Molecules {
  import opened Wrappers
  import opened Lists
  import opened MoleculeFragments

  /** The atoms `add_fragments` stores in a fragment: every atom of `all`
      whose label is in `wanted`, under its label, a later atom replacing an
      earlier one with the same label. */
  function SelectedAtoms(all: seq<Atom>, wanted: set<string>): (r: map<string, Atom>)
    decreases |all|
  {
    if all == [] then map[]
    else
      var rest := SelectedAtoms(all[..|all| - 1], wanted);
      var atom := all[|all| - 1];
      if atom.tags.name in wanted then rest[atom.tags.name := atom] else rest
  }

  /** The order in which those labels were first stored. */
  function SelectedOrder(all: seq<Atom>, wanted: set<string>): (r: seq<string>)
    decreases |all|
  {
    if all == [] then []
    else
      var rest := SelectedOrder(all[..|all| - 1], wanted);
      var name := all[|all| - 1].tags.name;
      if name in wanted && name !in SelectedAtoms(all[..|all| - 1], wanted) then rest + [name] else rest
  }

  /** The selection is a dictionary with its insertion order, every atom
      under its own label. */
  lemma {:induction false} SelectedCovers(all: seq<Atom>, wanted: set<string>)
    ensures Covers(SelectedAtoms(all, wanted), SelectedOrder(all, wanted))
    ensures Keyed(SelectedAtoms(all, wanted))
    decreases |all|
  {
    if all != [] {
      var p, atom := all[..|all| - 1], all[|all| - 1];
      SelectedCovers(p, wanted);
      if atom.tags.name in wanted && atom.tags.name !in SelectedAtoms(p, wanted) {
        DistinctAppend(SelectedOrder(p, wanted), atom.tags.name);
      }
    }
  }

  /** The selection holds exactly the wanted labels that some atom has. */
  lemma {:induction false} SelectedKeys(all: seq<Atom>, wanted: set<string>, k: string)
    ensures k in SelectedAtoms(all, wanted) <==> k in wanted && exists i :: 0 <= i < |all| && all[i].tags.name == k
    decreases |all|
  {
    if all != [] {
      var p := all[..|all| - 1];
      SelectedKeys(p, wanted, k);
      if exists i :: 0 <= i < |all| && all[i].tags.name == k {
        var i :| 0 <= i < |all| && all[i].tags.name == k;
        if i < |p| {
          assert p[i].tags.name == k;
        }
      }
      if exists i :: 0 <= i < |p| && p[i].tags.name == k {
        var i :| 0 <= i < |p| && p[i].tags.name == k;
        assert all[i].tags.name == k;
      }
    }
  }

  /** Under each label the selection holds the last atom with that label:
      a later duplicate replaces an earlier one. */
  lemma {:induction false} SelectedLast(all: seq<Atom>, wanted: set<string>, k: string)
    requires k in SelectedAtoms(all, wanted)
    ensures exists i :: 0 <= i < |all| && all[i] == SelectedAtoms(all, wanted)[k] &&
                        (forall j :: i < j < |all| ==> all[j].tags.name != k)
    decreases |all|
  {
    var p, atom := all[..|all| - 1], all[|all| - 1];
    var r := SelectedAtoms(all, wanted);
    if atom.tags.name in wanted && k == atom.tags.name {
      assert all[|all| - 1] == r[k];
    } else {
      SelectedKeys(all, wanted, k);
      assert SelectedAtoms(all, wanted)[k] == SelectedAtoms(p, wanted)[k];
      SelectedLast(p, wanted, k);
      var i :| 0 <= i < |p| && p[i] == SelectedAtoms(p, wanted)[k] && forall j :: i < j < |p| ==> p[j].tags.name != k;
      assert all[i] == r[k];
    }
  }

  /** `f` is a consistent new fragment of `molecule` holding the atoms of
      `all` named in `wanted`. */
  ghost predicate Copied(f: Fragment, molecule: string, fragmentId: string, all: seq<Atom>, wanted: set<string>)
    reads f
  {
    f.Valid() && f.fromEntry == molecule && f.fragmentId == fragmentId &&
    f.atoms == SelectedAtoms(all, wanted) && f.order == SelectedOrder(all, wanted) &&
    f.bonds == [] && f.center == NoCenter
  }

  /** The fragments of `fs` from index `from` on are new fragments of
      `molecule`, one per id of `ids` in turn, each holding the atoms of
      `all` its id lists. */
  ghost predicate CopiedAll(fs: seq<Fragment>, from: nat, molecule: string, ids: seq<string>,
                            labels: map<string, set<string>>, all: seq<Atom>)
    reads fs
  {
    |fs| == from + |ids| &&
    forall i :: from <= i < |fs| ==>
      ids[i - from] in labels && Copied(fs[i], molecule, ids[i - from], all, labels[ids[i - from]])
  }

  /** One more new fragment for one more id. */
  lemma CopiedAllAppend(fs: seq<Fragment>, from: nat, molecule: string, ids: seq<string>,
                        labels: map<string, set<string>>, all: seq<Atom>, f: Fragment, id: string)
    requires CopiedAll(fs, from, molecule, ids, labels, all)
    requires id in labels && Copied(f, molecule, id, all, labels[id])
    ensures CopiedAll(fs + [f], from, molecule, ids + [id], labels, all)
  {
    var gs, jds := fs + [f], ids + [id];
    forall i | from <= i < |gs|
      ensures jds[i - from] in labels && Copied(gs[i], molecule, jds[i - from], all, labels[jds[i - from]])
    {
      if i < |fs| {
        assert gs[i] == fs[i] && jds[i - from] == ids[i - from];
      }
    }
  }

  /** The body of the loop over `fragment_labels` in `add_fragments`: a new
      fragment of the molecule that receives copies of the atoms it names. */
  method NewFragment(molecule: string, fragmentId: string, all: seq<Atom>, wanted: set<string>) returns (f: Fragment)
    ensures fresh(f) && Copied(f, molecule, fragmentId, all, wanted)
  {
    f := new Fragment(molecule, fragmentId);
    var k := 0;
    while k < |all|
      invariant 0 <= k <= |all|
      invariant f.Valid() && f.fromEntry == molecule && f.fragmentId == fragmentId
      invariant f.atoms == SelectedAtoms(all[..k], wanted) && f.order == SelectedOrder(all[..k], wanted)
      invariant f.bonds == [] && f.center == NoCenter
    {
      assert all[..k + 1][..k] == all[..k];
      var atom := all[k];
      if atom.tags.name in wanted {
        f.AddAtom(atom);
      }
      k := k + 1;
    }
    assert all[..|all|] == all;
  }

  /** What `set_center` and `center_coordinates` read of a fragment. */
  datatype Snapshot = Snapshot(atoms: map<string, Atom>, order: seq<string>, center: Center)

  ghost function Snap(f: Fragment): Snapshot
    reads f
  {
    Snapshot(f.atoms, f.order, f.center)
  }

  /** `set_center` on these atoms leaves the fragment with a center. */
  ghost predicate HasCenter(s: Snapshot, atomType: string)
  {
    Covers(s.atoms, s.order) && !Chosen(s.atoms, s.order, atomType, s.center).NoCenter?
  }

  /** A fragment whose atoms have been marked by `set_center` and then
      centred: the atoms are the marked ones moved as `center_coordinates`
      moves them. */
  ghost predicate CenteredFrom(f: Fragment, s: Snapshot, atomType: string)
    reads f
  {
    HasCenter(s, atomType) &&
    var marked := Marked(s.atoms, atomType);
    var chosen := Chosen(s.atoms, s.order, atomType, s.center);
    f.order == s.order && (chosen.Stored? ==> chosen.key in s.order) &&
    OnlyMoved(marked, f.atoms) && PositionsOf(f.atoms, s.order) == CenteredPositions(marked, s.order, chosen)
  }

  /** A consistent fragment, centred from `s` when `done` and still in
      state `s` otherwise. */
  ghost predicate Progress(f: Fragment, s: Snapshot, atomType: string, done: bool)
    reads f
  {
    f.Valid() && if done then CenteredFrom(f, s, atomType) else Snap(f) == s
  }

  /** One pass of `center_fragments`: `set_center` and then
      `center_coordinates` on one fragment. */
  method CenterOne(f: Fragment, atomType: string) returns (r: Result<()>)
    requires f.Valid()
    modifies f
    ensures f.Valid()
    ensures r.Ok? <==> HasCenter(old(Snap(f)), atomType)
    ensures r.Ok? ==> CenteredFrom(f, old(Snap(f)), atomType)
  {
    f.SetCenter(atomType);
    r := f.CenterCoordinates();
  }

  class Molecule {
    /** The molecule's `label`, the `from_entry` of its fragments. */
    const name: string
    var allAtoms: seq<Atom>
    var fragments: seq<Fragment>

    /** The fragments are distinct objects, each in a consistent state. */
    ghost predicate Valid()
      reads this, fragments
    {
      Distinct(fragments) && forall i :: 0 <= i < |fragments| ==> fragments[i].Valid()
    }

    /** `Molecule(label)`: no atoms and no fragments yet. */
    constructor (name: string)
      ensures Valid() && this.name == name && allAtoms == [] && fragments == []
    {
      this.name := name;
      allAtoms, fragments := [], [];
    }

    /** `extend_molecule`: one more atom at the end of `all_atoms`; the
        fragments do not change. */
    method ExtendMolecule(atom: Atom)
      requires Valid()
      modifies this
      ensures Valid() && allAtoms == old(allAtoms) + [atom] && fragments == old(fragments)
    {
      allAtoms := allAtoms + [atom];
    }

    /** `add_fragments(fragment_labels)`: for every key of the dictionary,
        in its order `ids`, one new fragment at the end of `fragments`
        holding copies of the atoms of `all_atoms` whose label the key
        lists.  The fragments already there do not change. */
    method AddFragments(ids: seq<string>, fragmentLabels: map<string, set<string>>)
      requires Valid() && forall j :: 0 <= j < |ids| ==> ids[j] in fragmentLabels
      modifies this
      ensures Valid() && allAtoms == old(allAtoms)
      ensures |fragments| == |old(fragments)| + |ids| && fragments[..|old(fragments)|] == old(fragments)
      ensures forall i :: |old(fragments)| <= i < |fragments| ==> fresh(fragments[i])
      ensures CopiedAll(fragments, |old(fragments)|, name, ids, fragmentLabels, allAtoms)
    {
      var j := 0;
      while j < |ids|
        invariant 0 <= j <= |ids|
        invariant Valid() && allAtoms == old(allAtoms)
        invariant |fragments| == |old(fragments)| + j && fragments[..|old(fragments)|] == old(fragments)
        invariant forall i :: |old(fragments)| <= i < |fragments| ==> fresh(fragments[i])
        invariant CopiedAll(fragments, |old(fragments)|, name, ids[..j], fragmentLabels, allAtoms)
      {
        var f := NewFragment(name, ids[j], allAtoms, fragmentLabels[ids[j]]);
        DistinctAppend(fragments, f);
        CopiedAllAppend(fragments, |old(fragments)|, name, ids[..j], fragmentLabels, allAtoms, f, ids[j]);
        assert ids[..j + 1] == ids[..j] + [ids[j]];
        fragments := fragments + [f];
        j := j + 1;
      }
      assert ids[..j] == ids;
    }

    /** `center_fragments(atom_to_center)`: `set_center` and then
        `center_coordinates` on each fragment in turn, each on its own
        atoms only; `all_atoms` does not move.  It fails at the first
        fragment that has no center. */
    method CenterFragments(atomType: string) returns (r: Result<()>)
      requires Valid()
      modifies fragments
      ensures Valid() && allAtoms == old(allAtoms) && fragments == old(fragments)
      ensures r.Ok? <==> forall i :: 0 <= i < |fragments| ==> HasCenter(old(Snap(fragments[i])), atomType)
      ensures r.Ok? ==> forall i :: 0 <= i < |fragments| ==> CenteredFrom(fragments[i], old(Snap(fragments[i])), atomType)
    {
      var fs := fragments;
      ghost var before := seq(|fs|, k requires 0 <= k < |fs| reads fs => Snap(fs[k]));
      var i := 0;
      while i < |fs|
        invariant fs == fragments && 0 <= i <= |fs| && Distinct(fs)
        invariant forall k :: 0 <= k < |fs| ==> before[k] == old(Snap(fs[k]))
        invariant forall k :: 0 <= k < |fs| ==> Progress(fs[k], before[k], atomType, k < i)
      {
        var done := CenterOne(fs[i], atomType);
        if done.Err? {
          return Err(done.error);
        }
        i := i + 1;
      }
      r := Ok(());
    }
  }
}
