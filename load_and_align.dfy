/** `code/1_load_from_coords.py`: reads the fragments of a `.cor` file into
    `Fragment` objects, then for every fragment flags and relabels the atoms
    named in its parameter row, puts its center atom at the origin, rotates
    it into the standard orientation, mirrors it when it lies mostly below
    the xy-plane and writes one csv row per atom. */
module LoadAndAlign {
  import opened Wrappers
  import opened Lists
  import opened Text
  import opened Reals
  import opened Vectors
  import opened Blocks
  import opened UniqueLabels
  import opened AlignmentHelpers
  import opened Fragments
  import LoadFromCoords

  /** What the parser knows of a fragment: the fields of a `Fragment`. */
  datatype Parsed = Parsed(fromEntry: string, id: string, atoms: map<string, Atom>, order: seq<string>)

  /** The variables of the reading loop: the fragments already closed and
      the one being filled (`None` before the first header). */
  datatype Loader = Loader(done: seq<Parsed>, current: Option<Parsed>)

  const Start := Loader([], None)

  /** The characters `strip("%")` removes from an atom label. */
  const Percent: set<char> := {'%'}

  /** A new fragment for a header: `Fragment(fragment_id, from_entry)`. */
  function Opened(h: LoadFromCoords.Header): (p: Parsed)
    ensures p.fromEntry == h.entry && p.id == h.entry + h.fragmentNo
    ensures p.atoms == map[] && p.order == []
  {
    Parsed(h.entry, h.entry + h.fragmentNo, map[], [])
  }

  /** `add_atom` on the parser's view of a fragment. */
  function Added(p: Parsed, atom: Atom): (r: Parsed)
    ensures r.fromEntry == p.fromEntry && r.id == p.id
    ensures r.atoms == p.atoms[atom.props.name := atom]
    ensures r.order == if atom.props.name in p.atoms then p.order else p.order + [atom.props.name]
  {
    var name := atom.props.name;
    p.(atoms := p.atoms[name := atom], order := if name in p.atoms then p.order else p.order + [name])
  }

  /** The atom an atom line describes: the label without its '%' marks and
      the three coordinates cut before their uncertainty and parsed by
      `parseReal` (Python's `float`).  A line with fewer than four fields, a
      coordinate that is not a number or a label shorter than two
      characters raises in the script and is `None` here. */
  function ReadAtom(line: string, parseReal: string -> Option<real>): (r: Option<Atom>)
    ensures r.Some? ==> |Words(line)| >= 4
    ensures r.Some? ==> r.value.props.name == StripChars(Words(line)[0], Percent)
  {
    var information := Words(line);
    if |information| < 4 then None
    else
      var name := StripChars(information[0], Percent);
      var x := parseReal(LoadFromCoords.Coordinate(information[1]));
      var y := parseReal(LoadFromCoords.Coordinate(information[2]));
      var z := parseReal(LoadFromCoords.Coordinate(information[3]));
      if |name| < 2 || x.None? || y.None? || z.None? then None
      else Some(NewAtom(name, Vec3(x.value, y.value, z.value)))
  }

  /** What a line of the file says: a header line (it contains "FRAG")
      or an atom line. */
  datatype Item = HeaderItem(header: LoadFromCoords.Header) | AtomItem(atom: Atom)

  /** A header line is split on `**`, any other line is read as an atom. */
  function ReadLine(line: string, parseReal: string -> Option<real>): (r: Result<Item>)
    ensures r.Ok? && r.value.HeaderItem? ==> Contains(line, "FRAG") && LoadFromCoords.ReadHeader(line) == Some(r.value.header)
    ensures r.Ok? && r.value.AtomItem? ==> !Contains(line, "FRAG") && ReadAtom(line, parseReal) == Some(r.value.atom)
  {
    if Contains(line, "FRAG") then
      var h := LoadFromCoords.ReadHeader(line);
      if h.None? then Err("header line has fewer than three '**' fields") else Ok(HeaderItem(h.value))
    else
      var atom := ReadAtom(line, parseReal);
      if atom.None? then Err("malformed atom line") else Ok(AtomItem(atom.value))
  }

  /** One pass of the parsing loop.  A header closes the current fragment
      (if any) and opens a new one; an atom gives the current fragment one
      more atom under a label made free in it.  An atom line before the
      first header fails in the script (`None` has no atoms). */
  function Step(st: Loader, item: Item): Result<Loader>
  {
    match item
    case HeaderItem(h) =>
      var done := if st.current.None? then st.done else st.done + [st.current.value];
      Ok(Loader(done, Some(Opened(h))))
    case AtomItem(atom) =>
      if st.current.None? then Err("atom line before the first header")
      else
        var fragment := st.current.value;
        Ok(st.(current := Some(Added(fragment, CheckIfLabelExists(atom, fragment.atoms)))))
  }

  /** The parsing loop over the remaining lines; the first error stops it. */
  function Run(st: Loader, lines: seq<string>, parseReal: string -> Option<real>): Result<Loader>
    decreases |lines|
  {
    if lines == [] then Ok(st)
    else
      match ReadLine(lines[0], parseReal)
      case Err(e) => Err(e)
      case Ok(item) =>
        match Step(st, item)
        case Err(e) => Err(e)
        case Ok(next) => Run(next, lines[1..], parseReal)
  }

  /** Running from line `i` is one step and then running from line
      `i + 1`. */
  lemma RunFrom(st: Loader, lines: seq<string>, i: nat, parseReal: string -> Option<real>)
    requires i < |lines| && ReadLine(lines[i], parseReal).Ok?
    requires Step(st, ReadLine(lines[i], parseReal).value).Ok?
    ensures Run(st, lines[i..], parseReal) ==
      Run(Step(st, ReadLine(lines[i], parseReal).value).value, lines[i + 1..], parseReal)
  {
    assert lines[i..][1..] == lines[i + 1..];
  }

  /** `load_fragments_from_coords`: the closed fragments and the last one.
      Without any header the script returns `[None]`, on which everything
      after it fails; that is an error here. */
  function Load(lines: seq<string>, parseReal: string -> Option<real>): Result<seq<Parsed>>
  {
    match Run(Start, lines, parseReal)
    case Err(e) => Err(e)
    case Ok(st) => if st.current.None? then Err("no fragment header") else Ok(st.done + [st.current.value])
  }

  /** The `Fragment` object `f` holds what the parser describes as `p`. */
  ghost predicate Holds(f: Fragment, p: Parsed)
    reads f
  {
    f.fromEntry == p.fromEntry && f.id == p.id && f.atoms == p.atoms && f.order == p.order && f.Valid()
  }

  /** The number of header lines. */
  function HeaderCount(lines: seq<string>): (n: nat)
    ensures n <= |lines|
  {
    if lines == [] then 0
    else (if Contains(lines[0], "FRAG") then 1 else 0) + HeaderCount(lines[1..])
  }

  /** The fragments a loader state stands for: the closed ones and the open one. */
  function Opens(st: Loader): nat
  {
    |st.done| + if st.current.Some? then 1 else 0
  }

  /** Each header line opens exactly one fragment, no other line opens any,
      and fragments already closed are never changed. */
  lemma {:induction false} RunCountsFragments(st: Loader, lines: seq<string>, parseReal: string -> Option<real>)
    requires Run(st, lines, parseReal).Ok?
    ensures var end := Run(st, lines, parseReal).value;
      Opens(end) == Opens(st) + HeaderCount(lines) && |st.done| <= |end.done| && end.done[..|st.done|] == st.done
    decreases |lines|
  {
    if lines != [] {
      var next := Step(st, ReadLine(lines[0], parseReal).value).value;
      RunCountsFragments(next, lines[1..], parseReal);
      var end := Run(st, lines, parseReal).value;
      assert next.done[..|st.done|] == st.done;
      assert end.done[..|next.done|][..|st.done|] == end.done[..|st.done|];
    }
  }

  /** `load_fragments_from_coords` makes one fragment per "FRAG" line. */
  lemma LoadCountsFragments(lines: seq<string>, parseReal: string -> Option<real>)
    requires Load(lines, parseReal).Ok?
    ensures |Load(lines, parseReal).value| == HeaderCount(lines)
  {
    RunCountsFragments(Start, lines, parseReal);
  }

  /** A parsed fragment is sound when its order lists each label once and
      every atom is stored under its own label. */
  ghost predicate Sound(p: Parsed)
  {
    Covers(p.atoms, p.order) && forall k :: k in p.atoms ==> p.atoms[k].props.name == k
  }

  /** An atom line stores exactly one new atom: under a label no atom of
      the fragment had, so no atom is overwritten, and the label goes to the
      end of the order.  Soundness is kept. */
  lemma StepAtom(st: Loader, atom: Atom)
    requires st.current.Some? && Sound(st.current.value)
    ensures var p := st.current.value;
      var stored := CheckIfLabelExists(atom, p.atoms);
      var q := Step(st, AtomItem(atom)).value.current.value;
      stored.props.name !in p.atoms && q.atoms == p.atoms[stored.props.name := stored]
      && q.order == p.order + [stored.props.name] && Sound(q)
  {
    var p := st.current.value;
    var stored := CheckIfLabelExists(atom, p.atoms);
    DistinctAppend(p.order, stored.props.name);
  }

  /** Every step keeps the open fragment and the closed ones sound. */
  ghost predicate AllSound(st: Loader)
  {
    (forall k :: 0 <= k < |st.done| ==> Sound(st.done[k])) && (st.current.Some? ==> Sound(st.current.value))
  }

  lemma {:induction false} RunSound(st: Loader, lines: seq<string>, parseReal: string -> Option<real>)
    requires AllSound(st) && Run(st, lines, parseReal).Ok?
    ensures AllSound(Run(st, lines, parseReal).value)
    decreases |lines|
  {
    if lines != [] {
      var item := ReadLine(lines[0], parseReal).value;
      if item.AtomItem? {
        StepAtom(st, item.atom);
      }
      RunSound(Step(st, item).value, lines[1..], parseReal);
    }
  }

  /** Within every parsed fragment the labels are unique and each atom is
      stored under its own label. */
  lemma LoadSound(lines: seq<string>, parseReal: string -> Option<real>)
    requires Load(lines, parseReal).Ok?
    ensures forall k :: 0 <= k < |Load(lines, parseReal).value| ==> Sound(Load(lines, parseReal).value[k])
  {
    RunSound(Start, lines, parseReal);
  }

  /** A line that cannot be read, or an atom before any header, stops the
      run with an error. */
  lemma RunStops(st: Loader, lines: seq<string>, i: nat, parseReal: string -> Option<real>)
    requires i < |lines|
    requires ReadLine(lines[i], parseReal).Err? || Step(st, ReadLine(lines[i], parseReal).value).Err?
    ensures Run(st, lines[i..], parseReal) ==
      if ReadLine(lines[i], parseReal).Err? then Err(ReadLine(lines[i], parseReal).error)
      else Err(Step(st, ReadLine(lines[i], parseReal).value).error)
  {
    assert lines[i..][0] == lines[i];
  }

  /** The distinct objects `fragments` hold the parsed fragments `done`,
      one for one. */
  ghost predicate Built(fragments: seq<Fragment>, done: seq<Parsed>)
    reads set k | 0 <= k < |fragments| :: fragments[k]
  {
    |fragments| == |done| && Distinct(fragments) &&
    forall k :: 0 <= k < |fragments| ==> Holds(fragments[k], done[k])
  }

  /** One more object holding one more parsed fragment. */
  lemma BuiltAppend(fragments: seq<Fragment>, done: seq<Parsed>, f: Fragment, p: Parsed)
    requires Built(fragments, done) && f !in fragments && Holds(f, p)
    ensures Built(fragments + [f], done + [p])
  {
    DistinctAppend(fragments, f);
  }

  /** The objects of the parsing loop hold its state: the closed
      fragments and, when there is one, the fragment being filled. */
  ghost predicate Holding(fragments: seq<Fragment>, fragment: Fragment?, st: Loader)
    reads set k | 0 <= k < |fragments| :: fragments[k]
    reads fragment
  {
    Built(fragments, st.done) && (fragment == null <==> st.current.None?) &&
    (fragment != null ==> fragment !in fragments && Holds(fragment, st.current.value))
  }

  /** The body of the parsing loop for one line already read: a header
      closes the current fragment and creates a new one, an atom is stored
      in the current fragment under a free label. */
  method Apply(fragments: seq<Fragment>, fragment: Fragment?, item: Item, ghost st: Loader)
    returns (fs: seq<Fragment>, f: Fragment?)
    requires Step(st, item).Ok? && Holding(fragments, fragment, st)
    modifies fragment
    ensures Holding(fs, f, Step(st, item).value)
    ensures fs == fragments || (fragment != null && fs == fragments + [fragment])
    ensures f == fragment || fresh(f)
  {
    fs, f := fragments, fragment;
    match item {
      case HeaderItem(h) =>
        if fragment != null {
          BuiltAppend(fragments, st.done, fragment, st.current.value);
          fs := fragments + [fragment];
        }
        f := new Fragment(h.entry, h.fragmentNo);
      case AtomItem(atom) =>
        var stored := CheckIfLabelExists(atom, fragment.atoms);
        fragment.AddAtom(stored);
    }
  }

  /** `load_fragments_from_coords(lines)`: new `Fragment` objects, one per
      parsed fragment, holding exactly what `Load` describes. */
  method LoadFragmentsFromCoords(lines: seq<string>, parseReal: string -> Option<real>) returns (r: Result<seq<Fragment>>)
    ensures r.Err? ==> Load(lines, parseReal) == Err(r.error)
    ensures r.Ok? ==> Load(lines, parseReal).Ok? && Built(r.value, Load(lines, parseReal).value)
    ensures r.Ok? ==> forall k :: 0 <= k < |r.value| ==> fresh(r.value[k])
  {
    var error, fragments, fragment;
    ghost var st;
    error, fragments, fragment, st := ReadLines(lines, parseReal);
    if error.Some? {
      return Err(error.value);
    }
    if fragment == null {
      return Err("no fragment header");
    }
    var last: Fragment := fragment;
    BuiltAppend(fragments, st.done, last, st.current.value);
    return Ok(fragments + [last]);
  }

  /** The loop of `load_fragments_from_coords` over the lines: the first
      exception, or the fragments closed so far and the open one. */
  method ReadLines(lines: seq<string>, parseReal: string -> Option<real>)
    returns (error: Option<string>, fragments: seq<Fragment>, fragment: Fragment?, ghost st: Loader)
    ensures error.Some? ==> Run(Start, lines, parseReal) == Err(error.value)
    ensures error.None? ==> Run(Start, lines, parseReal) == Ok(st) && Holding(fragments, fragment, st)
    ensures forall k :: 0 <= k < |fragments| ==> fresh(fragments[k])
    ensures fragment != null ==> fresh(fragment)
  {
    fragments, fragment, st := [], null, Start;
    var i := 0;
    while i < |lines|
      invariant 0 <= i <= |lines|
      invariant Run(Start, lines, parseReal) == Run(st, lines[i..], parseReal)
      invariant Holding(fragments, fragment, st)
      invariant forall k :: 0 <= k < |fragments| ==> fresh(fragments[k])
      invariant fragment != null ==> fresh(fragment)
    {
      error, fragments, fragment, st := ReadLineAt(lines, i, parseReal, fragments, fragment, st);
      if error.Some? {
        return;
      }
      i := i + 1;
    }
    assert lines[i..] == [];
    error := None;
  }

  /** The loop body of `load_fragments_from_coords` for line `i`. */
  method ReadLineAt(lines: seq<string>, i: nat, parseReal: string -> Option<real>,
                    fragments: seq<Fragment>, fragment: Fragment?, ghost st: Loader)
    returns (error: Option<string>, fs: seq<Fragment>, f: Fragment?, ghost next: Loader)
    requires i < |lines| && Holding(fragments, fragment, st)
    modifies fragment
    ensures error.Some? ==> Run(st, lines[i..], parseReal) == Err(error.value)
    ensures error.None? ==> Run(st, lines[i..], parseReal) == Run(next, lines[i + 1..], parseReal) && Holding(fs, f, next)
    ensures fs == fragments || (fragment != null && fs == fragments + [fragment])
    ensures f == fragment || fresh(f)
  {
    var item := ReadLine(lines[i], parseReal);
    if item.Err? || (item.value.AtomItem? && fragment == null) {
      RunStops(st, lines, i, parseReal);
      return Some(if item.Err? then item.error else "atom line before the first header"), fragments, fragment, st;
    }
    RunFrom(st, lines, i, parseReal);
    next := Step(st, item.value).value;
    fs, f := Apply(fragments, fragment, item.value, st);
    error := None;
  }

  /** The column names of the parameter table that name atoms: the
      stripped names containing "LAB", in table order. */
  function LabelColumns(columns: seq<string>): (r: seq<string>)
    ensures forall j :: 0 <= j < |r| ==> Contains(r[j], "LAB")
    ensures |r| <= |columns|
  {
    if columns == [] then []
    else
      var c := Strip(columns[0]);
      (if Contains(c, "LAB") then [c] else []) + LabelColumns(columns[1..])
  }

  /** The parameter columns that name the center atom, the atom put on the
      x-axis, the atom put in the xy-plane and the substituent R. */
  datatype AlignmentColumns = AlignmentColumns(center: string, yAxis: string, xyPlane: string, r: string)

  /** The variables `center_atom`, `y_axis_atom` and `xy_plane_atom`, which
      keep their values from one fragment to the next. */
  datatype Captured = Captured(center: Option<string>, yAxis: Option<string>, xyPlane: Option<string>)

  const NoneCaptured := Captured(None, None, None)

  /** The atoms of a fragment during relabelling and the labels captured. */
  datatype Relabelled = Relabelled(atoms: map<string, Atom>, captured: Captured)

  /** The new label of the atom in column `j` (counted from zero). */
  function NewLabel(atom: Atom, column: string, j: nat, al: AlignmentColumns): (r: string)
    ensures column == al.r ==> r == "R" + NatToString(j + 1)
    ensures column != al.r ==> r == atom.props.symbol + NatToString(j + 1)
  {
    if column == al.r then "R" + NatToString(j + 1) else atom.props.symbol + NatToString(j + 1)
  }

  /** The `if`/`elif` chain: the first alignment column equal to `column`
      captures `name`. */
  function Capture(c: Captured, column: string, name: string, al: AlignmentColumns): (r: Captured)
  {
    if column == al.center then c.(center := Some(name))
    else if column == al.yAxis then c.(yAxis := Some(name))
    else if column == al.xyPlane then c.(xyPlane := Some(name))
    else c
  }

  /** One pass of the column loop: the atom the row names in `column` joins
      the central group, its current label may be captured, and it gets its
      new label under the same key.  A missing entry or an atom the fragment
      does not have raises `KeyError`. */
  function RelabelColumn(st: Relabelled, column: string, j: nat, row: map<string, string>, al: AlignmentColumns): Result<Relabelled>
  {
    if column !in row || row[column] !in st.atoms then Err("KeyError")
    else
      var key := row[column];
      var atom := AddToCentralGroup(st.atoms[key]);
      var renamed := atom.(props := atom.props.(name := NewLabel(atom, column, j, al)));
      Ok(Relabelled(st.atoms[key := renamed], Capture(st.captured, column, atom.props.name, al)))
  }

  /** The column loop from column `j` on. */
  function RelabelFrom(st: Relabelled, labels: seq<string>, j: nat, row: map<string, string>, al: AlignmentColumns): Result<Relabelled>
    decreases |labels| - j
  {
    if j >= |labels| then Ok(st)
    else
      match RelabelColumn(st, labels[j], j, row, al)
      case Err(e) => Err(e)
      case Ok(next) => RelabelFrom(next, labels, j + 1, row, al)
  }

  /** The whole column loop for one fragment, starting from the labels
      captured for the fragments before it. */
  function Relabel(atoms: map<string, Atom>, carried: Captured, labels: seq<string>, row: map<string, string>, al: AlignmentColumns): Result<Relabelled>
  {
    RelabelFrom(Relabelled(atoms, carried), labels, 0, row, al)
  }

  /** The column loop of `main` on a fragment's atoms. */
  method RelabelTable(table: map<string, Atom>, carried: Captured, labels: seq<string>, row: map<string, string>, al: AlignmentColumns)
    returns (r: Result<Relabelled>)
    ensures r == Relabel(table, carried, labels, row, al)
  {
    var atoms := table;
    var captured := carried;
    var j := 0;
    while j < |labels|
      invariant 0 <= j <= |labels|
      invariant Relabel(table, carried, labels, row, al) == RelabelFrom(Relabelled(atoms, captured), labels, j, row, al)
    {
      var column := labels[j];
      if column !in row || row[column] !in atoms {
        return Err("KeyError");
      }
      var atom := AddToCentralGroup(atoms[row[column]]);
      if column == al.center {
        captured := captured.(center := Some(atom.props.name));
      } else if column == al.yAxis {
        captured := captured.(yAxis := Some(atom.props.name));
      } else if column == al.xyPlane {
        captured := captured.(xyPlane := Some(atom.props.name));
      }
      atoms := atoms[row[column] := atom.(props := atom.props.(name := NewLabel(atom, column, j, al)))];
      j := j + 1;
    }
    return Ok(Relabelled(atoms, captured));
  }

  /** `after` differs from `before` only in labels and central-group flags,
      and no atom leaves the central group. */
  ghost predicate Renamed(before: map<string, Atom>, after: map<string, Atom>)
  {
    after.Keys == before.Keys &&
    forall k :: k in after ==>
      after[k] == before[k].(props := before[k].props.(name := after[k].props.name,
                                                      inCentralGroup := after[k].props.inCentralGroup)) &&
      (before[k].props.inCentralGroup ==> after[k].props.inCentralGroup)
  }

  /** The columns from `j` on name atoms the table has. */
  ghost predicate Named(atoms: map<string, Atom>, labels: seq<string>, j: nat, row: map<string, string>)
  {
    forall i :: j <= i < |labels| ==> labels[i] in row && row[labels[i]] in atoms
  }

  /** The keys the columns from `j` on name. */
  function Touched(labels: seq<string>, j: nat, row: map<string, string>): set<string>
  {
    set i | j <= i < |labels| && labels[i] in row :: row[labels[i]]
  }

  lemma RenamedTrans(a: map<string, Atom>, b: map<string, Atom>, c: map<string, Atom>)
    requires Renamed(a, b) && Renamed(b, c)
    ensures Renamed(a, c)
  {
    forall k | k in c
      ensures c[k] == a[k].(props := a[k].props.(name := c[k].props.name, inCentralGroup := c[k].props.inCentralGroup))
    {
      assert b[k] == a[k].(props := a[k].props.(name := b[k].props.name, inCentralGroup := b[k].props.inCentralGroup));
    }
  }

  /** One column renames and flags the one atom it names and nothing else. */
  lemma RelabelColumnSpec(st: Relabelled, column: string, j: nat, row: map<string, string>, al: AlignmentColumns)
    requires column in row && row[column] in st.atoms
    ensures var next := RelabelColumn(st, column, j, row, al).value;
      Renamed(st.atoms, next.atoms) && next.atoms[row[column]].props.inCentralGroup &&
      next.atoms[row[column]].props.name == NewLabel(st.atoms[row[column]], column, j, al) &&
      next.captured == Capture(st.captured, column, st.atoms[row[column]].props.name, al) &&
      (forall k :: k in st.atoms && k != row[column] ==> next.atoms[k] == st.atoms[k])
  {
  }

  /** The column loop fails exactly when a column names no atom of the
      table. */
  lemma {:induction false} RelabelFromOk(st: Relabelled, labels: seq<string>, j: nat, row: map<string, string>, al: AlignmentColumns)
    ensures RelabelFrom(st, labels, j, row, al).Ok? <==> Named(st.atoms, labels, j, row)
    decreases |labels| - j
  {
    if j < |labels| {
      var column := labels[j];
      if column in row && row[column] in st.atoms {
        var next := RelabelColumn(st, column, j, row, al).value;
        assert next.atoms.Keys == st.atoms.Keys;
        RelabelFromOk(next, labels, j + 1, row, al);
      }
    }
  }

  /** The column loop only renames and flags atoms, flags every atom a
      column names, and leaves every other atom as it was. */
  lemma {:induction false} RelabelFromSpec(st: Relabelled, labels: seq<string>, j: nat, row: map<string, string>, al: AlignmentColumns)
    requires Named(st.atoms, labels, j, row)
    ensures RelabelFrom(st, labels, j, row, al).Ok?
    ensures var r := RelabelFrom(st, labels, j, row, al).value;
      Renamed(st.atoms, r.atoms) &&
      (forall i :: j <= i < |labels| ==> r.atoms[row[labels[i]]].props.inCentralGroup) &&
      (forall k :: k in st.atoms && k !in Touched(labels, j, row) ==> r.atoms[k] == st.atoms[k])
    decreases |labels| - j
  {
    if j < |labels| {
      var column := labels[j];
      var next := RelabelColumn(st, column, j, row, al).value;
      RelabelColumnSpec(st, column, j, row, al);
      RelabelFromSpec(next, labels, j + 1, row, al);
      assert RelabelFrom(st, labels, j, row, al) == RelabelFrom(next, labels, j + 1, row, al);
      var r := RelabelFrom(next, labels, j + 1, row, al).value;
      RenamedTrans(st.atoms, next.atoms, r.atoms);
      assert Touched(labels, j, row) == Touched(labels, j + 1, row) + {row[column]};
    }
  }

  /** Different columns of the row name different atoms. */
  predicate Injective(row: map<string, string>, labels: seq<string>)
  {
    forall i, k :: 0 <= i < k < |labels| && labels[i] in row && labels[k] in row ==> row[labels[i]] != row[labels[k]]
  }

  /** The label `column` captures when a column from `j` on is `column`:
      the label the atom it names had before the loop. */
  function CaptureOf(atoms: map<string, Atom>, labels: seq<string>, j: nat, row: map<string, string>, column: string): Option<string>
  {
    if j <= |labels| && column in labels[j..] && column in row && row[column] in atoms
    then Some(atoms[row[column]].props.name) else None
  }

  /** When no two columns name the same atom, every atom a column names
      ends with the new label of that column, and each alignment column
      captures the label its atom had before the loop; a variable no column
      sets keeps its value. */
  lemma {:induction false} RelabelFromNames(st: Relabelled, labels: seq<string>, j: nat, row: map<string, string>, al: AlignmentColumns)
    requires Injective(row, labels) && Named(st.atoms, labels, j, row)
    ensures RelabelFrom(st, labels, j, row, al).Ok?
    ensures RelabelFrom(st, labels, j, row, al).value.atoms.Keys == st.atoms.Keys
    ensures var r := RelabelFrom(st, labels, j, row, al).value;
      forall i :: j <= i < |labels| ==>
        r.atoms[row[labels[i]]].props.name == NewLabel(st.atoms[row[labels[i]]], labels[i], i, al)
    decreases |labels| - j
  {
    RelabelFromSpec(st, labels, j, row, al);
    if j < |labels| {
      var column := labels[j];
      var next := RelabelColumn(st, column, j, row, al).value;
      RelabelColumnSpec(st, column, j, row, al);
      RelabelFromSpec(next, labels, j + 1, row, al);
      RelabelFromNames(next, labels, j + 1, row, al);
      assert RelabelFrom(st, labels, j, row, al) == RelabelFrom(next, labels, j + 1, row, al);
      assert row[column] !in Touched(labels, j + 1, row);
    }
  }

  /** One step of the column loop, seen from the captures: the column is
      not repeated later, and for every other column name the capture it
      would make is the same before and after the step. */
  lemma CaptureStep(st: Relabelled, labels: seq<string>, j: nat, row: map<string, string>, al: AlignmentColumns)
    requires Injective(row, labels) && Named(st.atoms, labels, j, row) && j < |labels|
    ensures var column := labels[j];
      var next := RelabelColumn(st, column, j, row, al).value;
      RelabelFrom(st, labels, j, row, al) == RelabelFrom(next, labels, j + 1, row, al) &&
      Named(next.atoms, labels, j + 1, row) &&
      next.captured == Capture(st.captured, column, st.atoms[row[column]].props.name, al) &&
      CaptureOf(st.atoms, labels, j, row, column) == Some(st.atoms[row[column]].props.name) &&
      column !in labels[j + 1..] &&
      forall x :: x != column ==>
        (x in labels[j..] <==> x in labels[j + 1..]) &&
        CaptureOf(next.atoms, labels, j + 1, row, x) == CaptureOf(st.atoms, labels, j, row, x)
  {
    var column := labels[j];
    var next := RelabelColumn(st, column, j, row, al).value;
    RelabelColumnSpec(st, column, j, row, al);
    assert labels[j..] == [column] + labels[j + 1..];
    forall k | j + 1 <= k < |labels|
      ensures labels[k] != column && row[labels[k]] != row[column]
    {
      assert row[labels[j]] != row[labels[k]];
    }
  }

  /** The capture of `center_atom` under the same condition. */
  lemma {:induction false} RelabelFromCapturesCenter(st: Relabelled, labels: seq<string>, j: nat, row: map<string, string>, al: AlignmentColumns)
    requires Injective(row, labels) && Named(st.atoms, labels, j, row) && j <= |labels|
    ensures RelabelFrom(st, labels, j, row, al).Ok?
    ensures RelabelFrom(st, labels, j, row, al).value.captured.center ==
      if al.center in labels[j..] then CaptureOf(st.atoms, labels, j, row, al.center) else st.captured.center
    decreases |labels| - j
  {
    RelabelFromOk(st, labels, j, row, al);
    if j < |labels| {
      CaptureStep(st, labels, j, row, al);
      RelabelFromCapturesCenter(RelabelColumn(st, labels[j], j, row, al).value, labels, j + 1, row, al);
    }
  }

  /** The capture of `y_axis_atom`, which a column equal to the center
      column does not reach. */
  lemma {:induction false} RelabelFromCapturesYAxis(st: Relabelled, labels: seq<string>, j: nat, row: map<string, string>, al: AlignmentColumns)
    requires Injective(row, labels) && Named(st.atoms, labels, j, row) && j <= |labels|
    ensures RelabelFrom(st, labels, j, row, al).Ok?
    ensures RelabelFrom(st, labels, j, row, al).value.captured.yAxis ==
      if al.yAxis in labels[j..] && al.yAxis != al.center
      then CaptureOf(st.atoms, labels, j, row, al.yAxis) else st.captured.yAxis
    decreases |labels| - j
  {
    RelabelFromOk(st, labels, j, row, al);
    if j < |labels| {
      CaptureStep(st, labels, j, row, al);
      RelabelFromCapturesYAxis(RelabelColumn(st, labels[j], j, row, al).value, labels, j + 1, row, al);
    }
  }

  /** The capture of `xy_plane_atom`, which a column equal to the center or
      the y-axis column does not reach. */
  lemma {:induction false} RelabelFromCapturesXyPlane(st: Relabelled, labels: seq<string>, j: nat, row: map<string, string>, al: AlignmentColumns)
    requires Injective(row, labels) && Named(st.atoms, labels, j, row) && j <= |labels|
    ensures RelabelFrom(st, labels, j, row, al).Ok?
    ensures RelabelFrom(st, labels, j, row, al).value.captured.xyPlane ==
      if al.xyPlane in labels[j..] && al.xyPlane != al.center && al.xyPlane != al.yAxis
      then CaptureOf(st.atoms, labels, j, row, al.xyPlane) else st.captured.xyPlane
    decreases |labels| - j
  {
    RelabelFromOk(st, labels, j, row, al);
    if j < |labels| {
      CaptureStep(st, labels, j, row, al);
      RelabelFromCapturesXyPlane(RelabelColumn(st, labels[j], j, row, al).value, labels, j + 1, row, al);
    }
  }

  /** The loop body of `main` up to the moves: the relabelling, then the
      three captured labels, which must be set (`UnboundLocalError`
      otherwise) and be keys of the fragment (`KeyError` otherwise). */
  function Plan(atoms: map<string, Atom>, carried: Captured, labels: seq<string>, row: map<string, string>, al: AlignmentColumns): (r: Result<Relabelled>)
    ensures r.Ok? ==> r.value.atoms.Keys == atoms.Keys
    ensures r.Ok? ==> var c := r.value.captured;
      c.center.Some? && c.yAxis.Some? && c.xyPlane.Some? &&
      c.center.value in atoms && c.yAxis.value in atoms && c.xyPlane.value in atoms
  {
    match Relabel(atoms, carried, labels, row, al)
    case Err(e) => Err(e)
    case Ok(st) =>
      RelabelFromOk(Relabelled(atoms, carried), labels, 0, row, al);
      RelabelFromSpec(Relabelled(atoms, carried), labels, 0, row, al);
      var c := st.captured;
      if c.center.None? then Err("UnboundLocalError")
      else if c.center.value !in st.atoms then Err("KeyError")
      else if c.yAxis.None? || c.xyPlane.None? then Err("UnboundLocalError")
      else if c.yAxis.value !in st.atoms || c.xyPlane.value !in st.atoms then Err("KeyError")
      else Ok(st)
  }

  /** A successful plan is the relabelling. */
  lemma PlanIsRelabel(atoms: map<string, Atom>, carried: Captured, labels: seq<string>, row: map<string, string>, al: AlignmentColumns)
    requires Plan(atoms, carried, labels, row, al).Ok?
    ensures Plan(atoms, carried, labels, row, al) == Relabel(atoms, carried, labels, row, al)
  {
  }

  /** Where the loop body moves the atoms: the center atom to the origin,
      the three rotations of `perform_rotations`, and the mirror of
      `invert_if_neccessary`. */
  function AlignedPositions(ps: seq<Vec3>, center: nat, first: nat, second: nat, sqrt: real -> real): (r: seq<Vec3>)
    requires center < |ps| && first < |ps| && second < |ps|
    ensures |r| == |ps|
  {
    MirrorIfNeeded(TranslateAndRotate(ps, center, first, second, sqrt))
  }

  /** With decisive rotations, the aligned fragment has its center atom at
      the origin, the first atom on the non-negative x-axis, the second in
      the xy-plane on the non-negative y side, and no negative z on
      average. */
  lemma AlignedCanonical(ps: seq<Vec3>, center: nat, first: nat, second: nat, sqrt: real -> real)
    requires IsSqrt(sqrt)
    requires center < |ps| && first < |ps| && second < |ps|
    requires DecisiveRotations(PerformTranslation(ps, center), first, second, sqrt)
    ensures var r := AlignedPositions(ps, center, first, second, sqrt);
      r[center] == Origin &&
      r[first].y == 0.0 && r[first].z == 0.0 && 0.0 <= r[first].x &&
      r[second].z == 0.0 && 0.0 <= r[second].y &&
      0.0 <= Sum(Zs(r))
  {
    var t := TranslateAndRotate(ps, center, first, second, sqrt);
    TranslateAndRotateCanonical(ps, center, first, second, sqrt);
    MirrorIfNeededSpec(t);
    var r := MirrorIfNeeded(t);
    assert r[center].x == t[center].x && r[center].y == t[center].y;
    assert r[first].x == t[first].x && r[first].y == t[first].y;
    assert r[second].y == t[second].y;
  }

  /** The alignment keeps every distance between two atoms. */
  lemma AlignedKeepsDistances(ps: seq<Vec3>, center: nat, first: nat, second: nat, sqrt: real -> real, i: nat, j: nat)
    requires IsSqrt(sqrt)
    requires center < |ps| && first < |ps| && second < |ps| && i < |ps| && j < |ps|
    ensures var r := AlignedPositions(ps, center, first, second, sqrt);
      SqDist(r[i], r[j]) == SqDist(ps[i], ps[j])
  {
    TranslateAndRotateKeepsDistances(ps, center, first, second, sqrt, i, j);
    MirrorIfNeededKeepsDistances(TranslateAndRotate(ps, center, first, second, sqrt), i, j);
  }

  /** One line of the aligned csv file. */
  datatype CsvRow = CsvRow(id: string, fromEntry: string, name: string, symbol: string, inCentralGroup: bool, pos: Vec3)

  /** The csv lines of a fragment whose atoms are at `ps`, in order. */
  function Rows(id: string, fromEntry: string, atoms: map<string, Atom>, order: seq<string>, ps: seq<Vec3>): (r: seq<CsvRow>)
    requires forall k :: 0 <= k < |order| ==> order[k] in atoms
    requires |ps| == |order|
    ensures |r| == |order|
    ensures forall k :: 0 <= k < |order| ==>
      var a := atoms[order[k]];
      r[k] == CsvRow(id, fromEntry, a.props.name, a.props.symbol, a.props.inCentralGroup, ps[k])
  {
    seq(|order|, k requires 0 <= k < |order| =>
      var a := atoms[order[k]];
      CsvRow(id, fromEntry, a.props.name, a.props.symbol, a.props.inCentralGroup, ps[k]))
  }

  /** `write_fragment_to_csv`: one line per atom in insertion order. */
  function CsvRows(id: string, fromEntry: string, atoms: map<string, Atom>, order: seq<string>): (r: seq<CsvRow>)
    requires forall k :: 0 <= k < |order| ==> order[k] in atoms
    ensures |r| == |order|
    ensures forall k :: 0 <= k < |order| ==>
      var a := atoms[order[k]];
      r[k] == CsvRow(id, fromEntry, a.props.name, a.props.symbol, a.props.inCentralGroup, a.pos)
  {
    Rows(id, fromEntry, atoms, order, PositionsOf(atoms, order))
  }

  /** Moving atoms changes nothing in the csv lines but the coordinates. */
  lemma RowsOnlyMoved(id: string, fromEntry: string, before: map<string, Atom>, after: map<string, Atom>, order: seq<string>)
    requires OnlyMoved(before, after) && forall k :: 0 <= k < |order| ==> order[k] in before
    ensures CsvRows(id, fromEntry, after, order) == Rows(id, fromEntry, before, order, PositionsOf(after, order))
  {
  }

  /** The coordinates column of a block of csv lines. */
  function RowPositions(rows: seq<CsvRow>): (r: seq<Vec3>)
    ensures |r| == |rows| && forall k :: 0 <= k < |rows| ==> r[k] == rows[k].pos
  {
    seq(|rows|, k requires 0 <= k < |rows| => rows[k].pos)
  }

  /** What the loop body writes for one fragment, and the captured labels
      it hands to the next. */
  datatype Written = Written(rows: seq<CsvRow>, captured: Captured)

  /** The loop body of `main` for the parsed fragment `p` and its parameter
      row. */
  function AlignParsed(p: Parsed, carried: Captured, labels: seq<string>, row: map<string, string>, al: AlignmentColumns, sqrt: real -> real): Result<Written>
    requires Covers(p.atoms, p.order)
  {
    match Plan(p.atoms, carried, labels, row, al)
    case Err(e) => Err(e)
    case Ok(st) =>
      var c := st.captured;
      var aligned := AlignedPositions(PositionsOf(st.atoms, p.order), IndexOf(p.order, c.center.value).value,
                                      IndexOf(p.order, c.yAxis.value).value, IndexOf(p.order, c.xyPlane.value).value, sqrt);
      Ok(Written(Rows(p.id, p.fromEntry, st.atoms, p.order, aligned), c))
  }

  /** `center_coordinates` followed by `perform_rotations`. */
  method CenterAndRotate(f: Fragment, center: string, yAxis: string, xyPlane: string, sqrt: real -> real)
    requires f.Valid() && center in f.atoms && yAxis in f.atoms && xyPlane in f.atoms
    modifies f
    ensures f.Valid() && f.order == old(f.order)
    ensures OnlyMoved(old(f.atoms), f.atoms)
    ensures PositionsOf(f.atoms, f.order) ==
      TranslateAndRotate(PositionsOf(old(f.atoms), f.order), IndexOf(f.order, center).value,
                         IndexOf(f.order, yAxis).value, IndexOf(f.order, xyPlane).value, sqrt)
  {
    ghost var a0 := f.atoms;
    f.CenterCoordinates(center);
    ghost var a1 := f.atoms;
    f.PerformRotations(yAxis, xyPlane, sqrt);
    OnlyMovedTrans(a0, a1, f.atoms);
  }

  /** The moves of the loop body on `f`, whose atoms have just been
      relabelled to `atoms`: center, rotate, mirror if needed. */
  method Place(f: Fragment, atoms: map<string, Atom>, center: string, yAxis: string, xyPlane: string, sqrt: real -> real)
    requires f.Valid() && atoms.Keys == f.atoms.Keys
    requires center in atoms && yAxis in atoms && xyPlane in atoms
    modifies f
    ensures f.Valid() && f.order == old(f.order)
    ensures OnlyMoved(atoms, f.atoms)
    ensures PositionsOf(f.atoms, f.order) ==
      AlignedPositions(PositionsOf(atoms, f.order), IndexOf(f.order, center).value,
                       IndexOf(f.order, yAxis).value, IndexOf(f.order, xyPlane).value, sqrt)
  {
    f.atoms := atoms;
    CenterAndRotate(f, center, yAxis, xyPlane, sqrt);
    ghost var a2 := f.atoms;
    CoversCount(a2, f.order);
    f.InvertIfNecessary();
    OnlyMovedTrans(atoms, a2, f.atoms);
  }

  /** The column loop followed by the lookups of the three captured
      atoms, which fail when a column was never seen or names no atom. */
  method PlanTable(table: map<string, Atom>, carried: Captured, labels: seq<string>, row: map<string, string>, al: AlignmentColumns)
    returns (r: Result<Relabelled>)
    ensures r == Plan(table, carried, labels, row, al)
  {
    var rel := RelabelTable(table, carried, labels, row, al);
    if rel.Err? {
      return Err(rel.error);
    }
    var c := rel.value.captured;
    if c.center.None? {
      return Err("UnboundLocalError");
    } else if c.center.value !in rel.value.atoms {
      return Err("KeyError");
    } else if c.yAxis.None? || c.xyPlane.None? {
      return Err("UnboundLocalError");
    } else if c.yAxis.value !in rel.value.atoms || c.xyPlane.value !in rel.value.atoms {
      return Err("KeyError");
    }
    return rel;
  }

  /** The loop body of `main` on the fragment object `f`: relabel its atoms,
      center it, rotate it, mirror it if needed and produce its csv lines.
      On success the lines are those of the object's final state. */
  method AlignFragment(f: Fragment, carried: Captured, labels: seq<string>, row: map<string, string>, al: AlignmentColumns, sqrt: real -> real)
    returns (r: Result<Written>)
    requires f.Valid()
    modifies f
    ensures f.Valid() && f.order == old(f.order)
    ensures r == AlignParsed(Parsed(f.fromEntry, f.id, old(f.atoms), old(f.order)), carried, labels, row, al, sqrt)
    ensures r.Ok? ==> r.value.rows == CsvRows(f.id, f.fromEntry, f.atoms, f.order)
  {
    var plan := PlanTable(f.atoms, carried, labels, row, al);
    if plan.Err? {
      return Err(plan.error);
    }
    var st := plan.value;
    var c := st.captured;
    Place(f, st.atoms, c.center.value, c.yAxis.value, c.xyPlane.value, sqrt);
    RowsOnlyMoved(f.id, f.fromEntry, st.atoms, f.atoms, f.order);
    r := Ok(Written(CsvRows(f.id, f.fromEntry, f.atoms, f.order), c));
  }

  /** The parameter row of fragment `i`: rows past the end of the table
      select nothing, and every lookup in them fails. */
  function RowAt(rows: seq<map<string, string>>, i: nat): (r: map<string, string>)
    ensures i < |rows| ==> r == rows[i]
    ensures i >= |rows| ==> r == map[]
  {
    if i < |rows| then rows[i] else map[]
  }

  /** Every parsed fragment lists each of its labels once. */
  ghost predicate AllCovered(ps: seq<Parsed>)
  {
    forall k :: 0 <= k < |ps| ==> Covers(ps[k].atoms, ps[k].order)
  }

  /** The loop of `main` from fragment `i` on: the csv lines of these
      fragments, in order, or the first exception. */
  function AlignFrom(ps: seq<Parsed>, i: nat, carried: Captured, labels: seq<string>, rows: seq<map<string, string>>,
                     al: AlignmentColumns, sqrt: real -> real): Result<seq<CsvRow>>
    requires AllCovered(ps)
    decreases |ps| - i
  {
    if i >= |ps| then Ok([])
    else
      match AlignParsed(ps[i], carried, labels, RowAt(rows, i), al, sqrt)
      case Err(e) => Err(e)
      case Ok(w) =>
        match AlignFrom(ps, i + 1, w.captured, labels, rows, al, sqrt)
        case Err(e) => Err(e)
        case Ok(rest) => Ok(w.rows + rest)
  }

  /** The lines `done` already written, followed by what is still to come. */
  function Then(done: seq<CsvRow>, rest: Result<seq<CsvRow>>): Result<seq<CsvRow>>
  {
    match rest
    case Err(e) => Err(e)
    case Ok(more) => Ok(done + more)
  }

  /** One step of the fragment loop: a failing fragment ends the loop with
      its exception; otherwise its lines come first. */
  lemma AlignFromStep(ps: seq<Parsed>, i: nat, carried: Captured, labels: seq<string>, rows: seq<map<string, string>>,
                      al: AlignmentColumns, sqrt: real -> real, w: Result<Written>, done: seq<CsvRow>)
    requires AllCovered(ps) && i < |ps|
    requires w == AlignParsed(ps[i], carried, labels, RowAt(rows, i), al, sqrt)
    ensures w.Err? ==> Then(done, AlignFrom(ps, i, carried, labels, rows, al, sqrt)) == Err(w.error)
    ensures w.Ok? ==>
      AlignFrom(ps, i, carried, labels, rows, al, sqrt) ==
      Then(w.value.rows, AlignFrom(ps, i + 1, w.value.captured, labels, rows, al, sqrt))
  {
  }

  /** Nothing written yet. */
  lemma ThenNothing(rest: Result<seq<CsvRow>>)
    ensures Then([], rest) == rest
  {
    if rest.Ok? {
      assert [] + rest.value == rest.value;
    }
  }

  /** Past the last fragment nothing more is written. */
  lemma AlignFromEnd(ps: seq<Parsed>, i: nat, carried: Captured, labels: seq<string>, rows: seq<map<string, string>>,
                     al: AlignmentColumns, sqrt: real -> real, done: seq<CsvRow>)
    requires AllCovered(ps) && |ps| <= i
    ensures Then(done, AlignFrom(ps, i, carried, labels, rows, al, sqrt)) == Ok(done)
  {
    assert done + [] == done;
  }

  /** Objects that hold parsed fragments hold covered ones. */
  lemma BuiltCovers(fragments: seq<Fragment>, ps: seq<Parsed>)
    requires Built(fragments, ps)
    ensures AllCovered(ps)
  {
    forall k | 0 <= k < |ps|
      ensures Covers(ps[k].atoms, ps[k].order)
    {
      assert Holds(fragments[k], ps[k]);
    }
  }

  /** Lines written before lines written before the rest. */
  lemma ThenThen(done: seq<CsvRow>, more: seq<CsvRow>, rest: Result<seq<CsvRow>>)
    ensures Then(done, Then(more, rest)) == Then(done + more, rest)
  {
    if rest.Ok? {
      assert done + (more + rest.value) == (done + more) + rest.value;
    }
  }

  /** The body of the fragment loop: fragment `i` is aligned; the objects
      after it still hold their parsed fragments. */
  method AlignAt(fragments: seq<Fragment>, ghost ps: seq<Parsed>, i: nat, carried: Captured, labels: seq<string>,
                 rows: seq<map<string, string>>, al: AlignmentColumns, sqrt: real -> real) returns (w: Result<Written>)
    requires AllCovered(ps) && i < |fragments| == |ps| && Distinct(fragments)
    requires forall k :: i <= k < |fragments| ==> Holds(fragments[k], ps[k])
    modifies fragments[i]
    ensures w == AlignParsed(ps[i], carried, labels, RowAt(rows, i), al, sqrt)
    ensures forall k :: i < k < |fragments| ==> Holds(fragments[k], ps[k])
  {
    var f := fragments[i];
    assert Holds(f, ps[i]);
    assert Parsed(f.fromEntry, f.id, f.atoms, f.order) == ps[i];
    w := AlignFragment(f, carried, labels, RowAt(rows, i), al, sqrt);
    assert forall k :: i < k < |fragments| ==> fragments[k] != f;
  }

  /** The loop of `main` over the fragment objects `fragments`, which hold
      the parsed fragments `ps`: the lines written to the aligned csv file. */
  method AlignFragments(fragments: seq<Fragment>, ghost ps: seq<Parsed>, labels: seq<string>, rows: seq<map<string, string>>,
                        al: AlignmentColumns, sqrt: real -> real) returns (r: Result<seq<CsvRow>>)
    requires Built(fragments, ps)
    modifies set k | 0 <= k < |fragments| :: fragments[k]
    ensures AllCovered(ps)
    ensures r == AlignFrom(ps, 0, NoneCaptured, labels, rows, al, sqrt)
  {
    BuiltCovers(fragments, ps);
    var out: seq<CsvRow> := [];
    var carried := NoneCaptured;
    var i := 0;
    ghost var total := AlignFrom(ps, 0, NoneCaptured, labels, rows, al, sqrt);
    ThenNothing(total);
    while i < |fragments|
      invariant 0 <= i <= |fragments| == |ps| && Distinct(fragments) && AllCovered(ps)
      invariant forall k :: i <= k < |fragments| ==> Holds(fragments[k], ps[k])
      invariant total == Then(out, AlignFrom(ps, i, carried, labels, rows, al, sqrt))
    {
      var w := AlignAt(fragments, ps, i, carried, labels, rows, al, sqrt);
      AlignFromStep(ps, i, carried, labels, rows, al, sqrt, w, out);
      if w.Err? {
        return Err(w.error);
      }
      ThenThen(out, w.value.rows, AlignFrom(ps, i + 1, w.value.captured, labels, rows, al, sqrt));
      out, carried := out + w.value.rows, w.value.captured;
      i := i + 1;
    }
    AlignFromEnd(ps, i, carried, labels, rows, al, sqrt, out);
    r := Ok(out);
  }

  /** `main` after the arguments are read: load the fragments of the
      coordinate file, then align each with its parameter row. */
  function Script(lines: seq<string>, parseReal: string -> Option<real>, columns: seq<string>,
                  rows: seq<map<string, string>>, al: AlignmentColumns, sqrt: real -> real): Result<seq<CsvRow>>
  {
    match Load(lines, parseReal)
    case Err(e) => Err(e)
    case Ok(ps) =>
      LoadSound(lines, parseReal);
      AlignFrom(ps, 0, NoneCaptured, LabelColumns(columns), rows, al, sqrt)
  }

  /** `main`: the lines of the aligned csv file, or the exception that
      stops the script. */
  method AlignCoordinateFile(lines: seq<string>, parseReal: string -> Option<real>, columns: seq<string>,
                             rows: seq<map<string, string>>, al: AlignmentColumns, sqrt: real -> real)
    returns (r: Result<seq<CsvRow>>)
    ensures r == Script(lines, parseReal, columns, rows, al, sqrt)
  {
    var loaded := LoadFragmentsFromCoords(lines, parseReal);
    if loaded.Err? {
      return Err(loaded.error);
    }
    r := AlignFragments(loaded.value, Load(lines, parseReal).value, LabelColumns(columns), rows, al, sqrt);
  }

  /** The number of atoms of the fragments from `i` on. */
  function AtomCount(ps: seq<Parsed>, i: nat): nat
    decreases |ps| - i
  {
    if i >= |ps| then 0 else |ps[i].order| + AtomCount(ps, i + 1)
  }

  /** The aligned csv file has one line per atom. */
  lemma {:induction false} AlignFromCount(ps: seq<Parsed>, i: nat, carried: Captured, labels: seq<string>,
                                          rows: seq<map<string, string>>, al: AlignmentColumns, sqrt: real -> real)
    requires AllCovered(ps)
    requires AlignFrom(ps, i, carried, labels, rows, al, sqrt).Ok?
    ensures |AlignFrom(ps, i, carried, labels, rows, al, sqrt).value| == AtomCount(ps, i)
    decreases |ps| - i
  {
    if i < |ps| {
      var w := AlignParsed(ps[i], carried, labels, RowAt(rows, i), al, sqrt);
      AlignFromCount(ps, i + 1, w.value.captured, labels, rows, al, sqrt);
    }
  }

  /** Renaming atoms does not move them. */
  lemma RenamedPositions(before: map<string, Atom>, after: map<string, Atom>, order: seq<string>)
    requires Renamed(before, after) && forall k :: 0 <= k < |order| ==> order[k] in before
    ensures PositionsOf(after, order) == PositionsOf(before, order)
  {
  }

  /** For a parsed fragment whose atoms are stored under their own labels,
      with a row whose columns name distinct atoms and three distinct
      alignment columns among the columns: the body succeeds exactly when
      every column names an atom of the fragment, and then it captures the
      very labels the row gives. */
  lemma PlanCaptures(p: Parsed, carried: Captured, labels: seq<string>, row: map<string, string>, al: AlignmentColumns,
                     c: nat, y: nat, xy: nat)
    requires Sound(p) && Injective(row, labels)
    requires c < |labels| && y < |labels| && xy < |labels|
    requires labels[c] == al.center && labels[y] == al.yAxis && labels[xy] == al.xyPlane
    requires al.center != al.yAxis && al.center != al.xyPlane && al.yAxis != al.xyPlane
    ensures Plan(p.atoms, carried, labels, row, al).Ok? <==> Named(p.atoms, labels, 0, row)
    ensures Plan(p.atoms, carried, labels, row, al).Ok? ==>
      labels[c] in row && labels[y] in row && labels[xy] in row &&
      Plan(p.atoms, carried, labels, row, al).value.captured ==
        Captured(Some(row[labels[c]]), Some(row[labels[y]]), Some(row[labels[xy]]))
  {
    var st := Relabelled(p.atoms, carried);
    RelabelFromOk(st, labels, 0, row, al);
    if Named(p.atoms, labels, 0, row) {
      RelabelFromSpec(st, labels, 0, row, al);
      CapturedLabels(st, labels, row, al, c, y, xy);
      assert RelabelFrom(st, labels, 0, row, al).value.atoms.Keys == p.atoms.Keys;
    }
  }

  /** The column loop over atoms stored under their own labels captures the
      labels the row gives for the three alignment columns. */
  lemma CapturedLabels(st: Relabelled, labels: seq<string>, row: map<string, string>, al: AlignmentColumns,
                       c: nat, y: nat, xy: nat)
    requires Injective(row, labels) && Named(st.atoms, labels, 0, row)
    requires forall k :: k in st.atoms ==> st.atoms[k].props.name == k
    requires c < |labels| && y < |labels| && xy < |labels|
    requires labels[c] == al.center && labels[y] == al.yAxis && labels[xy] == al.xyPlane
    requires al.center != al.yAxis && al.center != al.xyPlane && al.yAxis != al.xyPlane
    ensures labels[c] in row && labels[y] in row && labels[xy] in row
    ensures row[labels[c]] in st.atoms && row[labels[y]] in st.atoms && row[labels[xy]] in st.atoms
    ensures RelabelFrom(st, labels, 0, row, al).Ok?
    ensures RelabelFrom(st, labels, 0, row, al).value.captured ==
      Captured(Some(row[labels[c]]), Some(row[labels[y]]), Some(row[labels[xy]]))
  {
    assert labels[0..] == labels;
    assert labels[c] in row && row[labels[c]] in st.atoms;
    assert labels[y] in row && row[labels[y]] in st.atoms;
    assert labels[xy] in row && row[labels[xy]] in st.atoms;
    RelabelFromCapturesCenter(st, labels, 0, row, al);
    RelabelFromCapturesYAxis(st, labels, 0, row, al);
    RelabelFromCapturesXyPlane(st, labels, 0, row, al);
  }

  /** The coordinates written for a fragment are its parsed coordinates
      moved by the loop body around the captured center, y-axis and xy-plane
      atoms: renaming atoms does not move them. */
  lemma AlignParsedPositions(p: Parsed, carried: Captured, labels: seq<string>, row: map<string, string>,
                             al: AlignmentColumns, sqrt: real -> real)
    requires Covers(p.atoms, p.order)
    requires AlignParsed(p, carried, labels, row, al, sqrt).Ok?
    ensures Plan(p.atoms, carried, labels, row, al).Ok?
    ensures var c := Plan(p.atoms, carried, labels, row, al).value.captured;
      c.center.Some? && c.yAxis.Some? && c.xyPlane.Some? &&
      c.center.value in p.atoms && c.yAxis.value in p.atoms && c.xyPlane.value in p.atoms &&
      RowPositions(AlignParsed(p, carried, labels, row, al, sqrt).value.rows) ==
        AlignedPositions(PositionsOf(p.atoms, p.order), IndexOf(p.order, c.center.value).value,
                         IndexOf(p.order, c.yAxis.value).value, IndexOf(p.order, c.xyPlane.value).value, sqrt)
  {
    var st := Plan(p.atoms, carried, labels, row, al).value;
    PlanRenamed(p.atoms, carried, labels, row, al);
    WrittenPositions(p, st, sqrt);
  }

  /** The coordinates column of the lines written for the renamed atoms
      `st.atoms` is the aligned coordinates of the parsed atoms. */
  lemma WrittenPositions(p: Parsed, st: Relabelled, sqrt: real -> real)
    requires Covers(p.atoms, p.order) && Renamed(p.atoms, st.atoms)
    requires var c := st.captured;
      c.center.Some? && c.yAxis.Some? && c.xyPlane.Some? &&
      c.center.value in p.atoms && c.yAxis.value in p.atoms && c.xyPlane.value in p.atoms
    ensures var c := st.captured;
      var ic, iy, ixy := IndexOf(p.order, c.center.value).value, IndexOf(p.order, c.yAxis.value).value,
                         IndexOf(p.order, c.xyPlane.value).value;
      RowPositions(Rows(p.id, p.fromEntry, st.atoms, p.order, AlignedPositions(PositionsOf(st.atoms, p.order), ic, iy, ixy, sqrt))) ==
        AlignedPositions(PositionsOf(p.atoms, p.order), ic, iy, ixy, sqrt)
  {
    var c := st.captured;
    RenamedPositions(p.atoms, st.atoms, p.order);
    var aligned := AlignedPositions(PositionsOf(st.atoms, p.order), IndexOf(p.order, c.center.value).value,
                                    IndexOf(p.order, c.yAxis.value).value, IndexOf(p.order, c.xyPlane.value).value, sqrt);
    RowsPositions(p.id, p.fromEntry, st.atoms, p.order, aligned);
  }

  /** The coordinates column of the lines written at `ps` is `ps`. */
  lemma RowsPositions(id: string, fromEntry: string, atoms: map<string, Atom>, order: seq<string>, ps: seq<Vec3>)
    requires forall k :: 0 <= k < |order| ==> order[k] in atoms
    requires |ps| == |order|
    ensures RowPositions(Rows(id, fromEntry, atoms, order, ps)) == ps
  {
  }

  /** A successful plan only renames atoms. */
  lemma PlanRenamed(atoms: map<string, Atom>, carried: Captured, labels: seq<string>, row: map<string, string>, al: AlignmentColumns)
    requires Plan(atoms, carried, labels, row, al).Ok?
    ensures Renamed(atoms, Plan(atoms, carried, labels, row, al).value.atoms)
  {
    PlanIsRelabel(atoms, carried, labels, row, al);
    RelabelFromOk(Relabelled(atoms, carried), labels, 0, row, al);
    RelabelFromSpec(Relabelled(atoms, carried), labels, 0, row, al);
  }

  /** Under the conditions of `PlanCaptures`, and when the rotations are
      decisive, the lines written for the fragment put the atom of the
      center column at the origin, the atom of the y-axis column on the
      non-negative x-axis, the atom of the xy-plane column in the xy-plane on
      the non-negative y side, and the fragment on the non-negative z side on
      average; the captured labels are those of the row. */
  lemma AlignParsedCanonical(p: Parsed, carried: Captured, labels: seq<string>, row: map<string, string>,
                             al: AlignmentColumns, sqrt: real -> real, c: nat, y: nat, xy: nat)
    requires Sound(p) && Injective(row, labels) && Named(p.atoms, labels, 0, row)
    requires c < |labels| && y < |labels| && xy < |labels|
    requires labels[c] == al.center && labels[y] == al.yAxis && labels[xy] == al.xyPlane
    requires al.center != al.yAxis && al.center != al.xyPlane && al.yAxis != al.xyPlane
    requires IsSqrt(sqrt)
    requires DecisiveRotations(PerformTranslation(PositionsOf(p.atoms, p.order), IndexOf(p.order, row[labels[c]]).value),
                               IndexOf(p.order, row[labels[y]]).value, IndexOf(p.order, row[labels[xy]]).value, sqrt)
    ensures AlignParsed(p, carried, labels, row, al, sqrt).Ok?
    ensures var w := AlignParsed(p, carried, labels, row, al, sqrt).value;
      w.captured == Captured(Some(row[labels[c]]), Some(row[labels[y]]), Some(row[labels[xy]])) &&
      |w.rows| == |p.order|
    ensures var ps := RowPositions(AlignParsed(p, carried, labels, row, al, sqrt).value.rows);
      var ic, iy, ixy := IndexOf(p.order, row[labels[c]]).value, IndexOf(p.order, row[labels[y]]).value,
                         IndexOf(p.order, row[labels[xy]]).value;
      ps[ic] == Origin &&
      ps[iy].y == 0.0 && ps[iy].z == 0.0 && 0.0 <= ps[iy].x &&
      ps[ixy].z == 0.0 && 0.0 <= ps[ixy].y &&
      0.0 <= Sum(Zs(ps))
  {
    PlanCaptures(p, carried, labels, row, al, c, y, xy);
    AlignParsedPositions(p, carried, labels, row, al, sqrt);
    AlignedCanonical(PositionsOf(p.atoms, p.order), IndexOf(p.order, row[labels[c]]).value,
                     IndexOf(p.order, row[labels[y]]).value, IndexOf(p.order, row[labels[xy]]).value, sqrt);
  }

  /** Line `k` of a fragment describes its `k`-th atom after relabelling. */
  lemma AlignParsedRow(p: Parsed, carried: Captured, labels: seq<string>, row: map<string, string>,
                       al: AlignmentColumns, sqrt: real -> real, k: nat)
    requires Covers(p.atoms, p.order) && k < |p.order|
    requires AlignParsed(p, carried, labels, row, al, sqrt).Ok?
    ensures Plan(p.atoms, carried, labels, row, al).Ok? && p.order[k] in Plan(p.atoms, carried, labels, row, al).value.atoms
    ensures var w := AlignParsed(p, carried, labels, row, al, sqrt).value;
      var a := Plan(p.atoms, carried, labels, row, al).value.atoms[p.order[k]];
      |w.rows| == |p.order| &&
      w.rows[k] == CsvRow(p.id, p.fromEntry, a.props.name, a.props.symbol, a.props.inCentralGroup, w.rows[k].pos)
  {
  }

  /** The lines written for a fragment carry, for every atom a column
      names, the new label of that column and the central-group flag. */
  lemma AlignParsedLabels(p: Parsed, carried: Captured, labels: seq<string>, row: map<string, string>,
                          al: AlignmentColumns, sqrt: real -> real)
    requires Covers(p.atoms, p.order) && Injective(row, labels) && Named(p.atoms, labels, 0, row)
    requires AlignParsed(p, carried, labels, row, al, sqrt).Ok?
    ensures var w := AlignParsed(p, carried, labels, row, al, sqrt).value;
      |w.rows| == |p.order| &&
      forall i :: 0 <= i < |labels| ==>
        var k := IndexOf(p.order, row[labels[i]]).value;
        w.rows[k].name == NewLabel(p.atoms[row[labels[i]]], labels[i], i, al) && w.rows[k].inCentralGroup
  {
    var st := Relabelled(p.atoms, carried);
    PlanIsRelabel(p.atoms, carried, labels, row, al);
    RelabelFromSpec(st, labels, 0, row, al);
    RelabelFromNames(st, labels, 0, row, al);
    var after := RelabelFrom(st, labels, 0, row, al).value.atoms;
    var w := AlignParsed(p, carried, labels, row, al, sqrt).value;
    forall i | 0 <= i < |labels|
      ensures var k := IndexOf(p.order, row[labels[i]]).value;
        w.rows[k].name == NewLabel(p.atoms[row[labels[i]]], labels[i], i, al) && w.rows[k].inCentralGroup
    {
      var key := row[labels[i]];
      assert after[key].props.name == NewLabel(p.atoms[key], labels[i], i, al) && after[key].props.inCentralGroup;
      AlignParsedRow(p, carried, labels, row, al, sqrt, IndexOf(p.order, key).value);
    }
  }

  /** The lines written for a fragment carry, for every atom no column
      names, its label and flag as parsed. */
  lemma AlignParsedKeepsLabels(p: Parsed, carried: Captured, labels: seq<string>, row: map<string, string>,
                               al: AlignmentColumns, sqrt: real -> real, k: nat)
    requires Covers(p.atoms, p.order) && k < |p.order| && p.order[k] !in Touched(labels, 0, row)
    requires AlignParsed(p, carried, labels, row, al, sqrt).Ok?
    ensures var w := AlignParsed(p, carried, labels, row, al, sqrt).value;
      |w.rows| == |p.order| &&
      w.rows[k].name == p.atoms[p.order[k]].props.name &&
      w.rows[k].inCentralGroup == p.atoms[p.order[k]].props.inCentralGroup
  {
    var st := Relabelled(p.atoms, carried);
    PlanIsRelabel(p.atoms, carried, labels, row, al);
    RelabelFromOk(st, labels, 0, row, al);
    RelabelFromSpec(st, labels, 0, row, al);
    var key := p.order[k];
    assert RelabelFrom(st, labels, 0, row, al).value.atoms[key] == p.atoms[key];
    AlignParsedRow(p, carried, labels, row, al, sqrt, k);
  }

  /** The lines written for a fragment keep every distance between two of
      its atoms. */
  lemma AlignParsedKeepsDistances(p: Parsed, carried: Captured, labels: seq<string>, row: map<string, string>,
                                  al: AlignmentColumns, sqrt: real -> real, i: nat, j: nat)
    requires Covers(p.atoms, p.order) && IsSqrt(sqrt) && i < |p.order| && j < |p.order|
    requires AlignParsed(p, carried, labels, row, al, sqrt).Ok?
    ensures var ps, qs := RowPositions(AlignParsed(p, carried, labels, row, al, sqrt).value.rows), PositionsOf(p.atoms, p.order);
      |ps| == |qs| && SqDist(ps[i], ps[j]) == SqDist(qs[i], qs[j])
  {
    AlignParsedPositions(p, carried, labels, row, al, sqrt);
    WrittenKeepsDistances(RowPositions(AlignParsed(p, carried, labels, row, al, sqrt).value.rows),
                          p.atoms, p.order, Plan(p.atoms, carried, labels, row, al).value.captured, sqrt, i, j);
  }

  /** Aligned positions keep every distance. */
  lemma WrittenKeepsDistances(ws: seq<Vec3>, atoms: map<string, Atom>, order: seq<string>, c: Captured,
                              sqrt: real -> real, i: nat, j: nat)
    requires IsSqrt(sqrt) && Covers(atoms, order) && i < |order| && j < |order|
    requires c.center.Some? && c.yAxis.Some? && c.xyPlane.Some?
    requires c.center.value in atoms && c.yAxis.value in atoms && c.xyPlane.value in atoms
    requires ws == AlignedPositions(PositionsOf(atoms, order), IndexOf(order, c.center.value).value,
                                    IndexOf(order, c.yAxis.value).value, IndexOf(order, c.xyPlane.value).value, sqrt)
    ensures var ps := PositionsOf(atoms, order); |ws| == |ps| && SqDist(ws[i], ws[j]) == SqDist(ps[i], ps[j])
  {
    var ps := PositionsOf(atoms, order);
    var ic, iy, ixy := IndexOf(order, c.center.value).value, IndexOf(order, c.yAxis.value).value,
                       IndexOf(order, c.xyPlane.value).value;
    AlignedKeepsDistances(ps, ic, iy, ixy, sqrt, i, j);
  }
}
