/** `helpers/helpers.py`: reads the fragments of a `.cor` file into
    `Fragment` objects, keeps atom labels unique within a fragment, and
    fills a `Molecule` from the bond and parameter lines of an input file. */
module MoleculeLoading {
  import opened Wrappers
  import opened Lists
  import opened Text
  import opened Vectors
  import opened UniqueLabels
  import opened MoleculeFragments
  import opened Molecules
  import LoadFromCoords
  import LoadAndAlign

  /** `check_if_label_exists(atom, fragment)`: while the atom's label is a
      key of the fragment's atoms, the letter 'a' is appended to it.  Only
      the label changes. */
  function CheckIfLabelExists(atom: Atom, atoms: map<string, Atom>): (r: Atom)
    ensures r == atom.(tags := atom.tags.(name := r.tags.name))
    ensures r.tags.name == FreeLabel(atom.tags.name, atoms.Keys)
    ensures r.tags.name !in atoms
    decreases |Longer(atoms.Keys, |atom.tags.name|)|
  {
    if atom.tags.name in atoms then
      LongerShrinks(atoms.Keys, atom.tags.name);
      CheckIfLabelExists(atom.(tags := atom.tags.(name := atom.tags.name + "a")), atoms)
    else
      atom
  }

  /** What the parser knows of a fragment: the fields of a new `Fragment`
      that atoms were added to. */
  datatype Parsed = Parsed(fromEntry: string, id: string, atoms: map<string, Atom>, order: seq<string>)

  /** The variables of the reading loop: the fragments already closed and
      the one being filled (`None` before the first header). */
  datatype Loader = Loader(done: seq<Parsed>, current: Option<Parsed>)

  const Start := Loader([], None)

  /** `Fragment(fragment_id=information[2].strip(), from_entry=information[0].strip())`. */
  function Opened(h: LoadFromCoords.Header): (p: Parsed)
    ensures p.fromEntry == h.entry && p.id == h.fragmentNo
    ensures p.atoms == map[] && p.order == []
  {
    Parsed(h.entry, h.fragmentNo, map[], [])
  }

  /** `add_atom` on the parser's view of a fragment. */
  function Added(p: Parsed, atom: Atom): (r: Parsed)
    ensures r.fromEntry == p.fromEntry && r.id == p.id
    ensures r.atoms == p.atoms[atom.tags.name := atom]
    ensures atom.tags.name !in p.atoms ==> r.order == p.order + [atom.tags.name]
    ensures atom.tags.name in p.atoms ==> r.order == p.order
  {
    var name := atom.tags.name;
    p.(atoms := p.atoms[name := atom], order := if name in p.atoms then p.order else p.order + [name])
  }

  /** The atom an atom line describes: the label without its '%' marks and
      the three coordinates cut before their uncertainty and parsed by
      `parseReal` (Python's `float`).  A line with fewer than four fields or
      a coordinate that is not a number raises in the script and is `None`
      here. */
  function ReadAtom(line: string, parseReal: string -> Option<real>): (r: Option<Atom>)
    ensures r.Some? <==> (|Words(line)| >= 4 &&
                          parseReal(LoadFromCoords.Coordinate(Words(line)[1])).Some? &&
                          parseReal(LoadFromCoords.Coordinate(Words(line)[2])).Some? &&
                          parseReal(LoadFromCoords.Coordinate(Words(line)[3])).Some?)
    ensures r.Some? ==> r.value.tags.name == StripChars(Words(line)[0], LoadAndAlign.Percent)
    ensures r.Some? ==> r.value.tags.distanceToCenter.None? && r.value.tags.partOf == "f" && !r.value.tags.isPartOfTarget
  {
    var information := Words(line);
    if |information| < 4 then None
    else
      var x := parseReal(LoadFromCoords.Coordinate(information[1]));
      var y := parseReal(LoadFromCoords.Coordinate(information[2]));
      var z := parseReal(LoadFromCoords.Coordinate(information[3]));
      if x.None? || y.None? || z.None? then None
      else Some(NewAtom(StripChars(information[0], LoadAndAlign.Percent), Vec3(x.value, y.value, z.value)))
  }

  /** What a line of the file says: a header line (it contains "FRAG")
      or an atom line. */
  datatype Item = HeaderItem(header: LoadFromCoords.Header) | AtomItem(atom: Atom)

  /** A header line is split on `**`, any other line is read as an atom. */
  function ReadLine(line: string, parseReal: string -> Option<real>): (r: Result<Item>)
    ensures r.Ok? && r.value.HeaderItem? <==> Contains(line, "FRAG") && LoadFromCoords.ReadHeader(line).Some?
    ensures r.Ok? && r.value.HeaderItem? ==> LoadFromCoords.ReadHeader(line) == Some(r.value.header)
    ensures r.Ok? && r.value.AtomItem? <==> !Contains(line, "FRAG") && ReadAtom(line, parseReal).Some?
    ensures r.Ok? && r.value.AtomItem? ==> ReadAtom(line, parseReal) == Some(r.value.atom)
  {
    if Contains(line, "FRAG") then
      var h := LoadFromCoords.ReadHeader(line);
      if h.None? then Err(IndexOutOfRange) else Ok(HeaderItem(h.value))
    else
      var atom := ReadAtom(line, parseReal);
      if atom.None? then Err("malformed atom line") else Ok(AtomItem(atom.value))
  }

  /** One pass of the parsing loop.  A header closes the current fragment
      (if any) and opens a new one; an atom gives the current fragment one
      more atom under a label made free in it.  An atom line before the
      first header fails in the script (`None` has no atoms). */
  function Step(st: Loader, item: Item): (r: Result<Loader>)
    ensures r.Err? <==> item.AtomItem? && st.current.None?
  {
    match item
    case HeaderItem(h) =>
      var done := if st.current.None? then st.done else st.done + [st.current.value];
      Ok(Loader(done, Some(Opened(h))))
    case AtomItem(atom) =>
      if st.current.None? then Err("'NoneType' object has no attribute 'atoms'")
      else
        var fragment := st.current.value;
        Ok(st.(current := Some(Added(fragment, CheckIfLabelExists(atom, fragment.atoms)))))
  }

  /** The parsing loop over the remaining lines; the first error stops it. */
  function Run(st: Loader, lines: seq<string>, parseReal: string -> Option<real>): Result<Loader>
    decreases |lines|
  {
    if lines == [] then Ok(st)
    else
      match ReadLine(lines[0], parseReal)
      case Err(e) => Err(e)
      case Ok(item) =>
        match Step(st, item)
        case Err(e) => Err(e)
        case Ok(next) => Run(next, lines[1..], parseReal)
  }

  /** Running from line `i` is one step and then running from line
      `i + 1`. */
  lemma RunFrom(st: Loader, lines: seq<string>, i: nat, parseReal: string -> Option<real>)
    requires i < |lines| && ReadLine(lines[i], parseReal).Ok?
    requires Step(st, ReadLine(lines[i], parseReal).value).Ok?
    ensures Run(st, lines[i..], parseReal) ==
      Run(Step(st, ReadLine(lines[i], parseReal).value).value, lines[i + 1..], parseReal)
  {
    assert lines[i..][1..] == lines[i + 1..];
  }

  /** A line that cannot be read, or an atom before any header, stops the
      run with its error. */
  lemma RunStops(st: Loader, lines: seq<string>, i: nat, parseReal: string -> Option<real>)
    requires i < |lines|
    requires ReadLine(lines[i], parseReal).Err? || Step(st, ReadLine(lines[i], parseReal).value).Err?
    ensures Run(st, lines[i..], parseReal) ==
      if ReadLine(lines[i], parseReal).Err? then Err(ReadLine(lines[i], parseReal).error)
      else Err(Step(st, ReadLine(lines[i], parseReal).value).error)
  {
    assert lines[i..][0] == lines[i];
  }

  /** `load_fragments_from_coords`: the closed fragments and the last one.
      Without any header the script returns `[None]`, on which every caller
      fails; that is an error here. */
  function Load(lines: seq<string>, parseReal: string -> Option<real>): (r: Result<seq<Parsed>>)
    ensures r.Ok? ==> |r.value| >= 1
  {
    match Run(Start, lines, parseReal)
    case Err(e) => Err(e)
    case Ok(st) => if st.current.None? then Err("no fragment header") else Ok(st.done + [st.current.value])
  }

  /** The fragments a loader state stands for: the closed ones and the open one. */
  function Opens(st: Loader): (n: nat)
    ensures n == |st.done| || n == |st.done| + 1
  {
    |st.done| + if st.current.Some? then 1 else 0
  }

  /** Each header line opens exactly one fragment, no other line opens any,
      and fragments already closed are never changed. */
  lemma {:induction false} RunCountsFragments(st: Loader, lines: seq<string>, parseReal: string -> Option<real>)
    requires Run(st, lines, parseReal).Ok?
    ensures var end := Run(st, lines, parseReal).value;
      Opens(end) == Opens(st) + LoadAndAlign.HeaderCount(lines) &&
      |st.done| <= |end.done| && end.done[..|st.done|] == st.done
    decreases |lines|
  {
    if lines != [] {
      var next := Step(st, ReadLine(lines[0], parseReal).value).value;
      RunCountsFragments(next, lines[1..], parseReal);
      var end := Run(st, lines, parseReal).value;
      assert next.done[..|st.done|] == st.done;
      assert end.done[..|next.done|][..|st.done|] == end.done[..|st.done|];
    }
  }

  /** `load_fragments_from_coords` makes one fragment per "FRAG" line. */
  lemma LoadCountsFragments(lines: seq<string>, parseReal: string -> Option<real>)
    requires Load(lines, parseReal).Ok?
    ensures |Load(lines, parseReal).value| == LoadAndAlign.HeaderCount(lines)
  {
    RunCountsFragments(Start, lines, parseReal);
  }

  /** A parsed fragment is sound when its order lists each label once and
      every atom is stored under its own label. */
  ghost predicate Sound(p: Parsed)
  {
    Covers(p.atoms, p.order) && Keyed(p.atoms)
  }

  /** An atom line stores exactly one new atom: under a label no atom of
      the fragment had, so no atom is overwritten, and the label goes to the
      end of the order.  Soundness is kept. */
  lemma StepAtom(st: Loader, atom: Atom)
    requires st.current.Some? && Sound(st.current.value)
    ensures var p := st.current.value;
      var stored := CheckIfLabelExists(atom, p.atoms);
      var q := Step(st, AtomItem(atom)).value.current.value;
      stored.tags.name !in p.atoms && q.atoms == p.atoms[stored.tags.name := stored] &&
      q.order == p.order + [stored.tags.name] && Sound(q)
  {
    var p := st.current.value;
    var stored := CheckIfLabelExists(atom, p.atoms);
    DistinctAppend(p.order, stored.tags.name);
  }

  /** The closed fragments and the open one are all sound. */
  ghost predicate AllSound(st: Loader)
  {
    (forall k :: 0 <= k < |st.done| ==> Sound(st.done[k])) && (st.current.Some? ==> Sound(st.current.value))
  }

  /** Every step keeps the fragments sound. */
  lemma {:induction false} RunSound(st: Loader, lines: seq<string>, parseReal: string -> Option<real>)
    requires AllSound(st) && Run(st, lines, parseReal).Ok?
    ensures AllSound(Run(st, lines, parseReal).value)
    decreases |lines|
  {
    if lines != [] {
      var item := ReadLine(lines[0], parseReal).value;
      if item.AtomItem? {
        StepAtom(st, item.atom);
      }
      RunSound(Step(st, item).value, lines[1..], parseReal);
    }
  }

  /** Within every loaded fragment the labels are unique and each atom is
      stored under its own label. */
  lemma LoadSound(lines: seq<string>, parseReal: string -> Option<real>)
    requires Load(lines, parseReal).Ok?
    ensures forall k :: 0 <= k < |Load(lines, parseReal).value| ==> Sound(Load(lines, parseReal).value[k])
  {
    RunSound(Start, lines, parseReal);
  }

  /** The `Fragment` object `f` holds what the parser describes as `p`:
      a fragment that only had atoms added. */
  ghost predicate Holds(f: Fragment, p: Parsed)
    reads f
  {
    f.Valid() && f.fromEntry == p.fromEntry && f.fragmentId == p.id && f.atoms == p.atoms && f.order == p.order &&
    f.bonds == [] && f.center == NoCenter
  }

  /** The distinct objects `fragments` hold the parsed fragments `done`,
      one for one. */
  ghost predicate Built(fragments: seq<Fragment>, done: seq<Parsed>)
    reads set k | 0 <= k < |fragments| :: fragments[k]
  {
    |fragments| == |done| && Distinct(fragments) &&
    forall k :: 0 <= k < |fragments| ==> Holds(fragments[k], done[k])
  }

  /** One more object holding one more parsed fragment. */
  lemma BuiltAppend(fragments: seq<Fragment>, done: seq<Parsed>, f: Fragment, p: Parsed)
    requires Built(fragments, done) && f !in fragments && Holds(f, p)
    ensures Built(fragments + [f], done + [p])
  {
    DistinctAppend(fragments, f);
  }

  /** The objects of the parsing loop hold its state: the closed
      fragments and, when there is one, the fragment being filled. */
  ghost predicate Holding(fragments: seq<Fragment>, fragment: Fragment?, st: Loader)
    reads set k | 0 <= k < |fragments| :: fragments[k]
    reads fragment
  {
    Built(fragments, st.done) && (fragment == null <==> st.current.None?) &&
    (fragment != null ==> fragment !in fragments && Holds(fragment, st.current.value))
  }

  /** The body of the parsing loop for one line already read: a header
      closes the current fragment and creates a new one, an atom is stored
      in the current fragment under a free label. */
  method Apply(fragments: seq<Fragment>, fragment: Fragment?, item: Item, ghost st: Loader)
    returns (fs: seq<Fragment>, f: Fragment?)
    requires Step(st, item).Ok? && Holding(fragments, fragment, st)
    modifies fragment
    ensures Holding(fs, f, Step(st, item).value)
    ensures fs == fragments || (fragment != null && fs == fragments + [fragment])
    ensures f == fragment || fresh(f)
  {
    fs, f := fragments, fragment;
    match item {
      case HeaderItem(h) =>
        if fragment != null {
          BuiltAppend(fragments, st.done, fragment, st.current.value);
          fs := fragments + [fragment];
        }
        f := new Fragment(h.entry, h.fragmentNo);
      case AtomItem(atom) =>
        var stored := CheckIfLabelExists(atom, fragment.atoms);
        fragment.AddAtom(stored);
    }
  }

  /** `load_fragments_from_coords(lines)`: new `Fragment` objects, one per
      parsed fragment, holding exactly what `Load` describes. */
  method LoadFragmentsFromCoords(lines: seq<string>, parseReal: string -> Option<real>) returns (r: Result<seq<Fragment>>)
    ensures r.Err? ==> Load(lines, parseReal) == Err(r.error)
    ensures r.Ok? ==> Load(lines, parseReal).Ok? && Built(r.value, Load(lines, parseReal).value)
    ensures r.Ok? ==> forall k :: 0 <= k < |r.value| ==> fresh(r.value[k])
  {
    var error, fragments, fragment;
    ghost var st;
    error, fragments, fragment, st := ReadLines(lines, parseReal);
    if error.Some? {
      return Err(error.value);
    }
    if fragment == null {
      return Err("no fragment header");
    }
    var last: Fragment := fragment;
    BuiltAppend(fragments, st.done, last, st.current.value);
    return Ok(fragments + [last]);
  }

  /** The loop of `load_fragments_from_coords` over the lines: the first
      exception, or the fragments closed so far and the open one. */
  method ReadLines(lines: seq<string>, parseReal: string -> Option<real>)
    returns (error: Option<string>, fragments: seq<Fragment>, fragment: Fragment?, ghost st: Loader)
    ensures error.Some? ==> Run(Start, lines, parseReal) == Err(error.value)
    ensures error.None? ==> Run(Start, lines, parseReal) == Ok(st) && Holding(fragments, fragment, st)
    ensures forall k :: 0 <= k < |fragments| ==> fresh(fragments[k])
    ensures fragment != null ==> fresh(fragment)
  {
    fragments, fragment, st := [], null, Start;
    var i := 0;
    while i < |lines|
      invariant 0 <= i <= |lines|
      invariant Run(Start, lines, parseReal) == Run(st, lines[i..], parseReal)
      invariant Holding(fragments, fragment, st)
      invariant forall k :: 0 <= k < |fragments| ==> fresh(fragments[k])
      invariant fragment != null ==> fresh(fragment)
    {
      error, fragments, fragment, st := ReadLineAt(lines, i, parseReal, fragments, fragment, st);
      if error.Some? {
        return;
      }
      i := i + 1;
    }
    assert lines[i..] == [];
    error := None;
  }

  /** The loop body of `load_fragments_from_coords` for line `i`. */
  method ReadLineAt(lines: seq<string>, i: nat, parseReal: string -> Option<real>,
                    fragments: seq<Fragment>, fragment: Fragment?, ghost st: Loader)
    returns (error: Option<string>, fs: seq<Fragment>, f: Fragment?, ghost next: Loader)
    requires i < |lines| && Holding(fragments, fragment, st)
    modifies fragment
    ensures error.Some? ==> Run(st, lines[i..], parseReal) == Err(error.value)
    ensures error.None? ==> Run(st, lines[i..], parseReal) == Run(next, lines[i + 1..], parseReal) && Holding(fs, f, next)
    ensures fs == fragments || (fragment != null && fs == fragments + [fragment])
    ensures f == fragment || fresh(f)
  {
    var item := ReadLine(lines[i], parseReal);
    if item.Err? || (item.value.AtomItem? && fragment == null) {
      RunStops(st, lines, i, parseReal);
      return Some(if item.Err? then item.error else "'NoneType' object has no attribute 'atoms'"), fragments, fragment, st;
    }
    RunFrom(st, lines, i, parseReal);
    next := Step(st, item.value).value;
    fs, f := Apply(fragments, fragment, item.value, st);
    error := None;
  }

  /** The bonds of the bond lines: the first two fields of each line.  A
      line with fewer than two fields raises `IndexError`, the first such
      line stops the reading. */
  function ReadBonds(lines: seq<string>): (r: Result<seq<Bond>>)
    ensures r.Ok? <==> forall i :: 0 <= i < |lines| ==> |Words(lines[i])| >= 2
    ensures r.Ok? ==> |r.value| == |lines| &&
                      forall i :: 0 <= i < |lines| ==> r.value[i] == Bond(Words(lines[i])[0], Words(lines[i])[1])
    decreases |lines|
  {
    if lines == [] then Ok([])
    else
      var p := lines[..|lines| - 1];
      var information := Words(lines[|lines| - 1]);
      match ReadBonds(p)
      case Err(e) => Err(e)
      case Ok(bonds) =>
        if |information| < 2 then Err(IndexOutOfRange)
        else
          assert forall i :: 0 <= i < |p| ==> lines[i] == p[i];
          Ok(bonds + [Bond(information[0], information[1])])
  }

  /** The number of lines before the first one with fewer than two fields
      (all of them when there is none): the lines whose bonds are added
      before `information[1]` raises `IndexError`. */
  function ReadableLines(lines: seq<string>): (n: nat)
    ensures n <= |lines|
    ensures forall i :: 0 <= i < n ==> |Words(lines[i])| >= 2
    ensures n < |lines| ==> |Words(lines[n])| < 2
    decreases |lines|
  {
    if lines == [] || |Words(lines[0])| < 2 then 0
    else
      var n := ReadableLines(lines[1..]);
      assert forall i :: 1 <= i < |lines| ==> lines[i] == lines[1..][i - 1];
      1 + n
  }

  /** The readable lines are those before the first short one. */
  lemma ReadableLinesAt(lines: seq<string>, i: nat)
    requires i < |lines| && |Words(lines[i])| < 2
    requires forall j :: 0 <= j < i ==> |Words(lines[j])| >= 2
    ensures ReadableLines(lines) == i
  {
  }

  /** The bonds a fragment with atom labels `keys` receives: those whose
      first atom is one of its labels, in line order. */
  function BondsFor(bonds: seq<Bond>, keys: set<string>): (r: seq<Bond>)
    ensures forall b :: b in r <==> b in bonds && b.first in keys
    ensures |r| <= |bonds|
    decreases |bonds|
  {
    if bonds == [] then []
    else
      var b := bonds[|bonds| - 1];
      assert bonds == bonds[..|bonds| - 1] + [b];
      BondsFor(bonds[..|bonds| - 1], keys) + if b.first in keys then [b] else []
  }

  /** A consistent fragment in state `s` whose bonds are `bonds0` followed
      by those of `bonds` that start at one of its atoms. */
  ghost predicate Bonded(f: Fragment, s: Snapshot, bonds0: seq<Bond>, bonds: seq<Bond>)
    reads f
  {
    f.Valid() && Snap(f) == s && f.bonds == bonds0 + BondsFor(bonds, s.atoms.Keys)
  }

  /** Every fragment of `fs` has received its bonds from `bonds`. */
  ghost predicate AllBonded(fs: seq<Fragment>, before: seq<Snapshot>, bonds0: seq<seq<Bond>>, bonds: seq<Bond>)
    reads fs
  {
    |before| == |bonds0| == |fs| && forall k :: 0 <= k < |fs| ==> Bonded(fs[k], before[k], bonds0[k], bonds)
  }

  /** The inner loop body of `process_bond_lines` for one fragment. */
  method BondIfPresent(f: Fragment, b: Bond, ghost s: Snapshot, ghost bonds0: seq<Bond>, ghost bonds: seq<Bond>)
    requires Bonded(f, s, bonds0, bonds)
    modifies f
    ensures Bonded(f, s, bonds0, bonds + [b])
  {
    assert (bonds + [b])[..|bonds|] == bonds;
    if b.first in f.atoms {
      f.AddBond(b);
    }
  }

  /** The loop over the fragments for one bond line. */
  method BondAll(fs: seq<Fragment>, b: Bond, ghost before: seq<Snapshot>, ghost bonds0: seq<seq<Bond>>, ghost bonds: seq<Bond>)
    requires Distinct(fs) && AllBonded(fs, before, bonds0, bonds)
    modifies fs
    ensures AllBonded(fs, before, bonds0, bonds + [b])
  {
    var j := 0;
    while j < |fs|
      invariant 0 <= j <= |fs|
      invariant forall k :: 0 <= k < |fs| ==> Bonded(fs[k], before[k], bonds0[k], if k < j then bonds + [b] else bonds)
    {
      assert forall k :: 0 <= k < |fs| && k != j ==> fs[k] != fs[j];
      BondIfPresent(fs[j], b, before[j], bonds0[j], bonds);
      j := j + 1;
    }
  }

  /** `process_bond_lines(molecule, bond_lines)`: every bond line `a1 a2`
      appends the bond `[a1, a2]` to exactly the fragments that have an atom
      labelled `a1`.  Nothing else of a fragment changes.  A line with fewer
      than two fields raises, and the bonds of the lines before it stay. */
  method ProcessBondLines(m: Molecule, lines: seq<string>) returns (r: Result<()>)
    requires m.Valid()
    modifies m.fragments
    ensures m.Valid() && m.fragments == old(m.fragments)
    ensures r.Ok? <==> ReadBonds(lines).Ok?
    ensures r.Ok? ==> forall k :: 0 <= k < |m.fragments| ==>
      Bonded(m.fragments[k], old(Snap(m.fragments[k])), old(m.fragments[k].bonds), ReadBonds(lines).value)
    ensures r.Err? ==> ReadBonds(lines[..ReadableLines(lines)]).Ok? && forall k :: 0 <= k < |m.fragments| ==>
      Bonded(m.fragments[k], old(Snap(m.fragments[k])), old(m.fragments[k].bonds),
             ReadBonds(lines[..ReadableLines(lines)]).value)
  {
    var fs := m.fragments;
    ghost var before := seq(|fs|, k requires 0 <= k < |fs| reads fs => Snap(fs[k]));
    ghost var bonds0 := seq(|fs|, k requires 0 <= k < |fs| reads fs => fs[k].bonds);
    assert AllBonded(fs, before, bonds0, []) by {
      forall k | 0 <= k < |fs|
        ensures Bonded(fs[k], before[k], bonds0[k], [])
      {
        assert fs[k].bonds + [] == fs[k].bonds;
      }
    }
    var ok := BondLines(fs, lines, before, bonds0);
    r := if ok then Ok(()) else Err(IndexOutOfRange);
  }

  /** The outer loop of `process_bond_lines`: every bond line in turn, up
      to the first one with fewer than two fields. */
  method BondLines(fs: seq<Fragment>, lines: seq<string>, ghost before: seq<Snapshot>, ghost bonds0: seq<seq<Bond>>)
    returns (ok: bool)
    requires Distinct(fs) && AllBonded(fs, before, bonds0, [])
    modifies fs
    ensures ok <==> ReadBonds(lines).Ok?
    ensures ok ==> AllBonded(fs, before, bonds0, ReadBonds(lines).value)
    ensures !ok ==> ReadBonds(lines[..ReadableLines(lines)]).Ok? &&
                    AllBonded(fs, before, bonds0, ReadBonds(lines[..ReadableLines(lines)]).value)
    ensures forall k :: 0 <= k < |fs| ==> fs[k].Valid() && Snap(fs[k]) == before[k]
  {
    ghost var read: seq<Bond> := [];
    var i := 0;
    while i < |lines|
      invariant 0 <= i <= |lines|
      invariant ReadBonds(lines[..i]) == Ok(read)
      invariant AllBonded(fs, before, bonds0, read)
    {
      var information := Words(lines[i]);
      if |information| < 2 {
        ReadBondsStops(lines, i);
        assert forall j :: 0 <= j < i ==> lines[..i][j] == lines[j];
        ReadableLinesAt(lines, i);
        return false;
      }
      var b := Bond(information[0], information[1]);
      ReadBondsNext(lines, i, read);
      BondAll(fs, b, before, bonds0, read);
      read := read + [b];
      i := i + 1;
    }
    assert lines[..i] == lines;
    ok := true;
  }

  /** One more well-formed bond line adds its bond. */
  lemma ReadBondsNext(lines: seq<string>, i: nat, read: seq<Bond>)
    requires i < |lines| && ReadBonds(lines[..i]) == Ok(read) && |Words(lines[i])| >= 2
    ensures ReadBonds(lines[..i + 1]) == Ok(read + [Bond(Words(lines[i])[0], Words(lines[i])[1])])
  {
    assert lines[..i + 1][..i] == lines[..i];
  }

  /** A bond line with fewer than two fields makes the whole read fail. */
  lemma ReadBondsStops(lines: seq<string>, i: nat)
    requires i < |lines| && |Words(lines[i])| < 2
    ensures ReadBonds(lines).Err?
  {
  }

  /** What a parameter line contributes: the fragment id in its second
      field and the atom labels in its sixth and seventh. */
  datatype Parameter = Parameter(id: string, label1: string, label2: string)

  /** The parameter lines read up to the first line with fewer than seven
      fields, which raises `IndexError`. */
  function ReadParameters(lines: seq<string>): (r: Result<seq<Parameter>>)
    ensures r.Ok? <==> forall i :: 0 <= i < |lines| ==> |Words(lines[i])| >= 7
    ensures r.Ok? ==> |r.value| == |lines| &&
                      forall i :: 0 <= i < |lines| ==>
                        var w := Words(lines[i]); r.value[i] == Parameter(w[1], w[5], w[6])
    decreases |lines|
  {
    if lines == [] then Ok([])
    else
      var p := lines[..|lines| - 1];
      var param := Words(lines[|lines| - 1]);
      match ReadParameters(p)
      case Err(e) => Err(e)
      case Ok(rows) =>
        if |param| < 7 then Err(IndexOutOfRange)
        else
          assert forall i :: 0 <= i < |p| ==> lines[i] == p[i];
          Ok(rows + [Parameter(param[1], param[5], param[6])])
  }

  /** What `process_parameter_lines` collects in `target_atoms`: the
      fragment ids in the order they first appear and, per id, the set of
      atom labels named with it. */
  datatype Targets = Targets(ids: seq<string>, labels: map<string, set<string>>)

  /** `target_atoms[fragment_id]` extended by the labels of each row in turn. */
  function Collect(rows: seq<Parameter>): (t: Targets)
    decreases |rows|
  {
    if rows == [] then Targets([], map[])
    else
      var t := Collect(rows[..|rows| - 1]);
      var row := rows[|rows| - 1];
      var known := if row.id in t.labels then t.labels[row.id] else {};
      Targets(if row.id in t.labels then t.ids else t.ids + [row.id], t.labels[row.id := known + {row.label1, row.label2}])
  }

  /** The fragment ids of the rows. */
  function IdColumn(rows: seq<Parameter>): (r: seq<string>)
    ensures |r| == |rows| && forall i :: 0 <= i < |rows| ==> r[i] == rows[i].id
  {
    seq(|rows|, i requires 0 <= i < |rows| => rows[i].id)
  }

  /** Some row names label `l` with fragment id `id`. */
  ghost predicate Named(rows: seq<Parameter>, id: string, l: string)
  {
    exists i :: 0 <= i < |rows| && rows[i].id == id && (rows[i].label1 == l || rows[i].label2 == l)
  }

  /** The first index of `x` in `s + [y]` is its first index in `s` when
      `x` is in `s`. */
  lemma {:induction false} IndexOfAppend<T>(s: seq<T>, y: T, x: T)
    requires x in s
    ensures IndexOf(s + [y], x) == IndexOf(s, x)
  {
    var i := IndexOf(s, x).value;
    var j := IndexOf(s + [y], x).value;
    assert (s + [y])[i] == x;
    assert s[j] == x || j == |s|;
  }

  /** Every id once, in the order of its first row, and every id of a row
      collected. */
  lemma {:induction false} CollectIds(rows: seq<Parameter>)
    ensures var t := Collect(rows);
      Distinct(t.ids) && (forall id :: id in t.labels <==> id in t.ids) &&
      (forall id :: id in t.ids <==> id in IdColumn(rows)) &&
      (forall a, b :: 0 <= a < b < |t.ids| ==> IndexOf(IdColumn(rows), t.ids[a]).value < IndexOf(IdColumn(rows), t.ids[b]).value)
    decreases |rows|
  {
    if rows != [] {
      var p := rows[..|rows| - 1];
      var t0 := Collect(p);
      CollectIds(p);
      var col := IdColumn(rows);
      var id := rows[|rows| - 1].id;
      assert col == IdColumn(p) + [id];
      forall x | x in IdColumn(p)
        ensures IndexOf(col, x) == IndexOf(IdColumn(p), x)
      {
        IndexOfAppend(IdColumn(p), id, x);
      }
      var t := Collect(rows);
      if id !in t0.labels {
        DistinctAppend(t0.ids, id);
        assert IndexOf(col, id).value == |rows| - 1;
      }
      forall a, b | 0 <= a < b < |t.ids|
        ensures IndexOf(col, t.ids[a]).value < IndexOf(col, t.ids[b]).value
      {
        assert t.ids[a] == t0.ids[a] && t0.ids[a] in IdColumn(p);
        if b < |t0.ids| {
          assert t.ids[b] == t0.ids[b];
        } else {
          assert t.ids[b] == id;
        }
      }
    }
  }

  /** The ids collected are the ids of the rows. */
  lemma CollectedIds(rows: seq<Parameter>)
    ensures forall id :: id in Collect(rows).labels <==> id in IdColumn(rows)
  {
    CollectIds(rows);
  }

  /** Under each collected id are exactly the labels its rows name. */
  lemma {:induction false} CollectLabels(rows: seq<Parameter>, id: string, l: string)
    requires id in Collect(rows).labels
    ensures l in Collect(rows).labels[id] <==> Named(rows, id, l)
    decreases |rows|
  {
    var p := rows[..|rows| - 1];
    var t0 := Collect(p);
    CollectedIds(p);
    if id in t0.labels {
      CollectLabels(p, id, l);
    } else {
      assert id !in IdColumn(p);
    }
    if Named(p, id, l) {
      var i :| 0 <= i < |p| && p[i].id == id && (p[i].label1 == l || p[i].label2 == l);
      assert rows[i] == p[i];
    }
    if Named(rows, id, l) {
      var i :| 0 <= i < |rows| && rows[i].id == id && (rows[i].label1 == l || rows[i].label2 == l);
      if i < |p| {
        assert rows[i] == p[i];
        assert Named(p, id, l);
      }
    }
  }

  /** One more well-formed line is one more row. */
  lemma ReadParametersNext(lines: seq<string>, i: nat, rows: seq<Parameter>)
    requires i < |lines| && ReadParameters(lines[..i]) == Ok(rows) && |Words(lines[i])| >= 7
    ensures var w := Words(lines[i]); ReadParameters(lines[..i + 1]) == Ok(rows + [Parameter(w[1], w[5], w[6])])
  {
    assert lines[..i + 1][..i] == lines[..i];
  }

  /** One more row adds its labels to its id, and a new id at the end. */
  lemma CollectNext(rows: seq<Parameter>, row: Parameter)
    ensures var t := Collect(rows);
      var known := if row.id in t.labels then t.labels[row.id] else {};
      Collect(rows + [row]) ==
        Targets(if row.id in t.labels then t.ids else t.ids + [row.id], t.labels[row.id := known + {row.label1, row.label2}])
  {
    assert (rows + [row])[..|rows|] == rows;
  }

  /** The loop of `process_parameter_lines` that fills `target_atoms`;
      the labels of an id are kept as a set, which is what
      `list(set(...))` leaves of them. */
  method CollectTargetAtoms(lines: seq<string>) returns (r: Result<Targets>)
    ensures r.Ok? <==> ReadParameters(lines).Ok?
    ensures r.Ok? ==> r.value == Collect(ReadParameters(lines).value)
  {
    var ids: seq<string> := [];
    var targetAtoms: map<string, set<string>> := map[];
    ghost var rows: seq<Parameter> := [];
    var i := 0;
    while i < |lines|
      invariant 0 <= i <= |lines|
      invariant ReadParameters(lines[..i]) == Ok(rows) && Collect(rows) == Targets(ids, targetAtoms)
    {
      var param := Words(lines[i]);
      if |param| < 7 {
        ReadParametersStops(lines, i);
        return Err(IndexOutOfRange);
      }
      var fragmentId := param[1];
      ReadParametersNext(lines, i, rows);
      CollectNext(rows, Parameter(fragmentId, param[5], param[6]));
      // `defaultdict(list)`: an id seen for the first time starts empty
      var known := if fragmentId in targetAtoms then targetAtoms[fragmentId] else {};
      if fragmentId !in targetAtoms {
        ids := ids + [fragmentId];
      }
      targetAtoms := targetAtoms[fragmentId := known + {param[5], param[6]}];
      rows := rows + [Parameter(fragmentId, param[5], param[6])];
      i := i + 1;
    }
    assert lines[..i] == lines;
    r := Ok(Targets(ids, targetAtoms));
  }

  /** A parameter line with fewer than seven fields makes the whole read
      fail. */
  lemma ReadParametersStops(lines: seq<string>, i: nat)
    requires i < |lines| && |Words(lines[i])| < 7
    ensures ReadParameters(lines).Err?
  {
  }

  /** `process_parameter_lines(molecule, parameterlines)`: collects the
      labels per fragment id and then makes one new fragment per id with
      `add_fragments`.  A short line raises before the molecule changes. */
  method ProcessParameterLines(m: Molecule, lines: seq<string>) returns (r: Result<()>)
    requires m.Valid()
    modifies m
    ensures m.Valid() && m.allAtoms == old(m.allAtoms)
    ensures r.Ok? <==> ReadParameters(lines).Ok?
    ensures r.Err? ==> m.fragments == old(m.fragments)
    ensures r.Ok? ==> |old(m.fragments)| <= |m.fragments| && m.fragments[..|old(m.fragments)|] == old(m.fragments)
    ensures r.Ok? ==> forall i :: |old(m.fragments)| <= i < |m.fragments| ==> fresh(m.fragments[i])
    ensures r.Ok? ==> var t := Collect(ReadParameters(lines).value);
      CopiedAll(m.fragments, |old(m.fragments)|, m.name, t.ids, t.labels, m.allAtoms)
  {
    var targets := CollectTargetAtoms(lines);
    if targets.Err? {
      return Err(targets.error);
    }
    var t := targets.value;
    CollectIds(ReadParameters(lines).value);
    assert forall j :: 0 <= j < |t.ids| ==> t.ids[j] in t.labels;
    m.AddFragments(t.ids, t.labels);
    r := Ok(());
  }
}
