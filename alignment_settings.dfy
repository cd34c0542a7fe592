/** The extra settings of the superimposition scripts (`AlignmentSettings`):
    the label of every atom of a fragment, read from the first fragment of
    the coordinate file, and the alignment dictionary of the central group,
    whose R atoms are renamed to recognisable labels.

    The label file is given by its lines, the coordinate file by its lines
    and the central groups table by the row of this central group. */
module AlignmentSettingsModel {
  import opened Wrappers
  import opened Text
  import opened Lists
  import opened SettingsModel

  /** A value of the alignment dictionary: one label, or the list of labels
      the `bin` column is split into. */
  datatype Entry = Label(name: string) | Labels(names: seq<string>)

  /** The two tables `rename_labels` patches together. */
  datatype Tables = Tables(labelList: seq<string>, alignment: map<string, Entry>)

  /** The columns of the central groups table used for the alignment. */
  datatype CentralRow = CentralRow(center: string, yAxis: string, xyPlane: string,
                                   bin: string, r: string, treatAsR: string)

  // ---------------------------------------------------------------- atoms_to_labels

  /** A column pair of the label file's two header lines as
      `atoms_to_labels` reads it: the stripped atom and label, and whether
      the label contains "LAB". */
  datatype Column = Column(atom: string, tag: string, labelled: bool)

  function ColumnOf(heading: string, atom: string): Column
  {
    Column(Strip(atom), Strip(heading), Contains(heading, "LAB"))
  }

  /** The number of pairs `zip` forms. */
  function ZipLength<T, U>(a: seq<T>, b: seq<U>): (n: nat)
    ensures n <= |a| && n <= |b| && (n == |a| || n == |b|)
  {
    if |a| <= |b| then |a| else |b|
  }

  /** The first `n` column pairs. */
  function Columns(labels: seq<string>, atoms: seq<string>, n: nat): (r: seq<Column>)
    requires n <= |labels| && n <= |atoms|
    ensures |r| == n
  {
    if n == 0 then [] else Columns(labels, atoms, n - 1) + [ColumnOf(labels[n - 1], atoms[n - 1])]
  }

  lemma {:induction false} ColumnsAt(labels: seq<string>, atoms: seq<string>, n: nat, i: nat)
    requires i < n <= |labels| && n <= |atoms|
    ensures Columns(labels, atoms, n)[i] == ColumnOf(labels[i], atoms[i])
  {
    if i < n - 1 {
      ColumnsAt(labels, atoms, n - 1, i);
    }
  }

  /** The atom-to-label dictionary of a run of column pairs: a pair counts
      when it is labelled, and a later pair overwrites an earlier one with
      the same atom. */
  function Translation(columns: seq<Column>): map<string, string>
  {
    if columns == [] then map[]
    else
      var m := Translation(columns[..|columns| - 1]);
      var c := columns[|columns| - 1];
      if c.labelled then m[c.atom := c.tag] else m
  }

  /** The dictionary built from the two header lines of the label file. */
  function LabelTranslation(labelLine: string, atomLine: string): map<string, string>
  {
    var labels := Split(labelLine, ",");
    var atoms := Split(atomLine, ",");
    Translation(Columns(labels, atoms, ZipLength(labels, atoms)))
  }

  /** Every key of the dictionary is the atom of some labelled pair. */
  lemma {:induction false} TranslationKeyWitness(columns: seq<Column>, key: string) returns (i: nat)
    requires key in Translation(columns)
    ensures i < |columns| && columns[i].labelled && columns[i].atom == key
  {
    var p := columns[..|columns| - 1];
    var c := columns[|columns| - 1];
    if c.labelled && key == c.atom {
      i := |columns| - 1;
    } else {
      i := TranslationKeyWitness(p, key);
    }
  }

  /** The atom of every labelled pair is a key of the dictionary. */
  lemma {:induction false} TranslationHasKey(columns: seq<Column>, i: nat)
    requires i < |columns| && columns[i].labelled
    ensures columns[i].atom in Translation(columns)
  {
    var p := columns[..|columns| - 1];
    if i < |columns| - 1 {
      TranslationHasKey(p, i);
      assert Translation(p).Keys <= Translation(columns).Keys;
    }
  }

  /** The label of an atom is that of the last labelled pair naming it. */
  lemma {:induction false} TranslationLastWins(columns: seq<Column>, i: nat)
    requires i < |columns| && columns[i].labelled
    requires forall j :: i < j < |columns| && columns[j].labelled ==> columns[j].atom != columns[i].atom
    ensures columns[i].atom in Translation(columns) && Translation(columns)[columns[i].atom] == columns[i].tag
  {
    var p := columns[..|columns| - 1];
    if i < |columns| - 1 {
      TranslationLastWins(p, i);
    }
  }

  /** `atoms_to_labels` on the comma-separated fields of the first two
      lines of the label file. */
  method AtomsToLabels(labels: seq<string>, atoms: seq<string>) returns (translation: map<string, string>)
    ensures translation == Translation(Columns(labels, atoms, ZipLength(labels, atoms)))
  {
    var n := ZipLength(labels, atoms);
    translation := map[];
    var i := 0;
    while i < n
      invariant i <= n
      invariant translation == Translation(Columns(labels, atoms, i))
    {
      ghost var cs := Columns(labels, atoms, i + 1);
      assert cs[..i] == Columns(labels, atoms, i);
      if Contains(labels[i], "LAB") {
        translation := translation[Strip(atoms[i]) := Strip(labels[i])];
      }
      i := i + 1;
    }
  }

  // ---------------------------------------------------------------- read_coord_file

  /** The label of the atom on a coordinate line: the translation of the
      line's first space-separated field, or "-" when it has none. */
  function LabelOf(translation: map<string, string>, line: string): string
  {
    var id := Split(line, " ")[0];
    if id in translation then translation[id] else "-"
  }

  /** The labels of a run of atom lines. */
  function LabelsOf(translation: map<string, string>, lines: seq<string>): (r: seq<string>)
    ensures |r| == |lines|
  {
    if lines == [] then []
    else LabelsOf(translation, lines[..|lines| - 1]) + [LabelOf(translation, lines[|lines| - 1])]
  }

  lemma {:induction false} LabelsOfAt(translation: map<string, string>, lines: seq<string>, i: nat)
    requires i < |lines|
    ensures LabelsOf(translation, lines)[i] == LabelOf(translation, lines[i])
  {
    if i < |lines| - 1 {
      LabelsOfAt(translation, lines[..|lines| - 1], i);
    }
  }

  /** The first line at or after `from` that contains "FRAG". */
  function NextFrag(lines: seq<string>, from: nat): (r: Option<nat>)
    requires from <= |lines|
    ensures r.Some? ==> from <= r.value < |lines| && Contains(lines[r.value], "FRAG")
    ensures forall k :: from <= k < (if r.Some? then r.value else |lines|) ==> !Contains(lines[k], "FRAG")
    decreases |lines| - from
  {
    if from == |lines| then None
    else if Contains(lines[from], "FRAG") then Some(from)
    else NextFrag(lines, from + 1)
  }

  /** The label list `read_coord_file` builds: one label per line after the
      first header, up to the next header.  Without a second header the
      file runs out and the script stops. */
  function CoordLabels(translation: map<string, string>, lines: seq<string>): Option<seq<string>>
  {
    if |lines| < 1 then None
    else
      match NextFrag(lines, 1)
      case None => None
      case Some(j) => Some(LabelsOf(translation, lines[1..j]))
  }

  /** The label list has one entry per atom line of the first fragment, the
      translation of that line's atom or "-", and the central atoms are the
      entries other than "-". */
  lemma CoordLabelsSpec(translation: map<string, string>, lines: seq<string>, k: nat)
    requires CoordLabels(translation, lines).Some?
    requires k < |CoordLabels(translation, lines).value|
    ensures var list := CoordLabels(translation, lines).value;
      2 <= |lines| && |list| + 1 < |lines| && Contains(lines[|list| + 1], "FRAG") &&
      !Contains(lines[k + 1], "FRAG") &&
      list[k] == (var id := Split(lines[k + 1], " ")[0]; if id in translation then translation[id] else "-")
  {
    var j := NextFrag(lines, 1).value;
    LabelsOfAt(translation, lines[1..j], k);
  }

  // ---------------------------------------------------------------- rename_labels

  /** The dictionary with every value `Label(from)` replaced by `Label(to)`. */
  function Relabel(m: map<string, Entry>, from: string, to: string): map<string, Entry>
  {
    map k | k in m :: if m[k] == Label(from) then Label(to) else m[k]
  }

  /** The new label of the `i`-th (from 0) R atom `rlabel`. */
  function NewRLabel(rlabel: string, suffix: string, i: nat): string
  {
    rlabel + suffix + NatToString(i + 1)
  }

  /** One step of the loop in `rename_labels`; `None` where `list.index`
      raises. */
  function RenameStep(t: Tables, rlabel: string, to: string): Option<Tables>
  {
    match IndexOf(t.labelList, rlabel)
    case None => None
    case Some(k) => Some(Tables(t.labelList[k := to], Relabel(t.alignment[rlabel := Label(rlabel)], rlabel, to)))
  }

  /** The first `n` steps of the loop over the R atoms `atoms`. */
  function RenameUpTo(t: Tables, atoms: seq<string>, suffix: string, n: nat): Option<Tables>
    requires n <= |atoms|
  {
    if n == 0 then Some(t)
    else
      match RenameUpTo(t, atoms, suffix, n - 1)
      case None => None
      case Some(u) => RenameStep(u, atoms[n - 1], NewRLabel(atoms[n - 1], suffix, n - 1))
  }

  /** `rename_labels(label, new_label)`; `None` where the script raises. */
  function Rename(t: Tables, field: string, suffix: string): Option<Tables>
  {
    if field !in t.alignment || !t.alignment[field].Label? then None
    else
      var value := t.alignment[field].name;
      if value == "-" || value == "" then Some(t)
      else
        var atoms := Split(value, "-");
        RenameUpTo(t, atoms, suffix, |atoms|)
  }

  /** One renaming step replaces the first occurrence of the R atom by its
      new label and nothing else in the list, and fails exactly when the
      atom is not in the list; in the dictionary the atom becomes a key and
      every value naming it, its own included, names the new label. */
  lemma RenameStepSpec(t: Tables, rlabel: string, to: string)
    ensures RenameStep(t, rlabel, to).Some? <==> rlabel in t.labelList
    ensures RenameStep(t, rlabel, to).Some? ==>
      var u := RenameStep(t, rlabel, to).value;
      var k := IndexOf(t.labelList, rlabel).value;
      |u.labelList| == |t.labelList| && t.labelList[k] == rlabel && u.labelList[k] == to &&
      (forall j :: 0 <= j < k ==> t.labelList[j] != rlabel) &&
      (forall j :: 0 <= j < |t.labelList| && j != k ==> u.labelList[j] == t.labelList[j]) &&
      u.alignment.Keys == t.alignment.Keys + {rlabel} && u.alignment[rlabel] == Label(to) &&
      (forall key :: key in t.alignment && t.alignment[key] == Label(rlabel) ==> u.alignment[key] == Label(to)) &&
      (forall key :: key in t.alignment && key != rlabel && t.alignment[key] != Label(rlabel) ==>
         u.alignment[key] == t.alignment[key])
  {
  }

  /** Once a step fails, the renaming fails. */
  lemma {:induction false} RenameUpToFails(t: Tables, atoms: seq<string>, suffix: string, i: nat, n: nat)
    requires i <= n <= |atoms|
    requires RenameUpTo(t, atoms, suffix, i).None?
    ensures RenameUpTo(t, atoms, suffix, n).None?
    decreases n - i
  {
    if i < n {
      RenameUpToFails(t, atoms, suffix, i + 1, n);
    }
  }

  /** A '-' or empty entry leaves both tables as they are. */
  lemma RenameSkips(t: Tables, field: string, suffix: string)
    requires field in t.alignment
    requires t.alignment[field] == Label("-") || t.alignment[field] == Label("")
    ensures Rename(t, field, suffix) == Some(t)
  {
  }

  /** Renaming R atoms that are not "-" keeps the list length, keeps every
      dictionary key and keeps the number of central atoms. */
  lemma {:induction false} RenameUpToShape(t: Tables, atoms: seq<string>, suffix: string, n: nat)
    requires n <= |atoms| && suffix != ""
    requires forall i :: 0 <= i < |atoms| ==> atoms[i] != "-"
    ensures RenameUpTo(t, atoms, suffix, n).Some? ==>
      var u := RenameUpTo(t, atoms, suffix, n).value;
      |u.labelList| == |t.labelList| && t.alignment.Keys <= u.alignment.Keys &&
      CountOther(u.labelList, "-") == CountOther(t.labelList, "-")
  {
    if n > 0 && RenameUpTo(t, atoms, suffix, n - 1).Some? {
      RenameUpToShape(t, atoms, suffix, n - 1);
      var u := RenameUpTo(t, atoms, suffix, n - 1).value;
      var rlabel := atoms[n - 1];
      var to := NewRLabel(rlabel, suffix, n - 1);
      var k := IndexOf(u.labelList, rlabel);
      if k.Some? {
        assert |to| >= 2;
        CountOtherUpdate(u.labelList, k.value, to, "-");
      }
    }
  }

  /** `rename_labels` with the R atoms of a dictionary entry keeps the shape
      of the tables. */
  lemma RenameShape(t: Tables, field: string, suffix: string)
    requires suffix != ""
    ensures Rename(t, field, suffix).Some? ==>
      var u := Rename(t, field, suffix).value;
      |u.labelList| == |t.labelList| && t.alignment.Keys <= u.alignment.Keys &&
      CountOther(u.labelList, "-") == CountOther(t.labelList, "-")
  {
    if field in t.alignment && t.alignment[field].Label? {
      var value := t.alignment[field].name;
      if value != "-" && value != "" {
        var atoms := Split(value, "-");
        SplitFieldsFree(value, "-");
        forall i | 0 <= i < |atoms|
          ensures atoms[i] != "-"
        {
          assert !Contains(atoms[i], "-");
          assert Contains("-", "-") by {
            assert IsPrefix("-", "-");
          }
        }
        RenameUpToShape(t, atoms, suffix, |atoms|);
      }
    }
  }

  // ---------------------------------------------------------------- make_alignment_dict

  /** The `bin` entry: the labels split on '-', or "-" itself. */
  function BinEntry(bin: string): Entry
  {
    if bin != "-" then Labels(Split(bin, "-")) else Label(bin)
  }

  /** The dictionary before the R atoms are renamed. */
  function InitialAlignment(row: CentralRow): map<string, Entry>
  {
    map["center" := Label(row.center), "yaxis" := Label(row.yAxis), "xyplane" := Label(row.xyPlane),
        "bin" := BinEntry(row.bin), "R" := Label(row.r), "r" := Label(row.treatAsR)]
  }

  /** The tables after `make_alignment_dict`: first the R atoms, then the
      atoms treated as R. */
  function AlignmentOf(labelList: seq<string>, row: CentralRow): Option<Tables>
  {
    match Rename(Tables(labelList, InitialAlignment(row)), "R", "-R")
    case None => None
    case Some(u) => Rename(u, "r", "-r")
  }

  /** After `make_alignment_dict` the six fields are keys of the dictionary,
      and the label list keeps its length and its number of central atoms. */
  lemma AlignmentOfShape(labelList: seq<string>, row: CentralRow)
    ensures AlignmentOf(labelList, row).Some? ==>
      var u := AlignmentOf(labelList, row).value;
      {"center", "yaxis", "xyplane", "bin", "R", "r"} <= u.alignment.Keys &&
      |u.labelList| == |labelList| && CountOther(u.labelList, "-") == CountOther(labelList, "-")
  {
    var t := Tables(labelList, InitialAlignment(row));
    RenameShape(t, "R", "-R");
    var u := Rename(t, "R", "-R");
    if u.Some? {
      RenameShape(u.value, "r", "-r");
    }
  }

  /** The label list and the dictionary of a central group, from the two
      header lines of the label file, the coordinate file and the row of
      the central groups table; `None` where the script stops. */
  function AlignmentTables(labelLines: seq<string>, coordinateLines: seq<string>, row: CentralRow): Option<Tables>
  {
    if |labelLines| < 2 then None
    else
      match CoordLabels(LabelTranslation(labelLines[0], labelLines[1]), coordinateLines)
      case None => None
      case Some(list) => AlignmentOf(list, row)
  }

  /** The label file of a coordinate file: its name with the last extension
      replaced by ".csv". */
  function LabelDataFile(coordinateFile: string): string
  {
    BeforeLast(coordinateFile, '.') + ".csv"
  }

  /** `AlignmentSettings`: the settings of a pair plus the alignment data. */
  class AlignmentSettings {
    const settings: Settings
    var labelData: string
    var alignment: map<string, Entry>
    var labelList: seq<string>
    var noAtoms: nat
    var noAtomsCentral: nat
    var noFragments: nat

    /** The fields set before the files are read. */
    constructor (settings: Settings, coordinateFile: string)
      ensures this.settings == settings && labelData == LabelDataFile(coordinateFile)
      ensures alignment == map[] && labelList == [] && noAtoms == 0 && noAtomsCentral == 0
    {
      this.settings := settings;
      labelData := LabelDataFile(coordinateFile);
      alignment := map[];
      labelList := [];
      noAtoms := 0;
      noAtomsCentral := 0;
    }

    method SetLabelFile(filename: string)
      modifies this
      ensures labelData == filename
      ensures alignment == old(alignment) && labelList == old(labelList)
      ensures noAtoms == old(noAtoms) && noAtomsCentral == old(noAtomsCentral) && noFragments == old(noFragments)
    {
      labelData := filename;
    }

    method SetNoFragments(noFragments: nat)
      modifies this
      ensures this.noFragments == noFragments
      ensures labelData == old(labelData) && alignment == old(alignment) && labelList == old(labelList)
      ensures noAtoms == old(noAtoms) && noAtomsCentral == old(noAtomsCentral)
    {
      this.noFragments := noFragments;
    }

    /** `read_coord_file`: the labels of the atoms of the first fragment,
        their number and the number of central atoms among them. */
    method ReadCoordFile(translation: map<string, string>, lines: seq<string>) returns (ok: bool)
      modifies this
      ensures ok == CoordLabels(translation, lines).Some?
      ensures ok ==> labelList == CoordLabels(translation, lines).value
      ensures ok ==> noAtoms == |labelList| && noAtomsCentral == CountOther(labelList, "-")
      ensures labelData == old(labelData) && alignment == old(alignment) && noFragments == old(noFragments)
    {
      labelList := [];
      noAtoms := 0;
      noAtomsCentral := 0;
      if |lines| < 2 {
        return false;
      }
      var i := 1;
      while i < |lines| && !Contains(lines[i], "FRAG")
        invariant 1 <= i <= |lines|
        invariant NextFrag(lines, i) == NextFrag(lines, 1)
        invariant labelList == LabelsOf(translation, lines[1..i])
        invariant noAtoms == |labelList| && noAtomsCentral == CountOther(labelList, "-")
        invariant labelData == old(labelData) && alignment == old(alignment) && noFragments == old(noFragments)
        decreases |lines| - i
      {
        var field := LabelOf(translation, lines[i]);
        assert lines[1..i + 1][..i - 1] == lines[1..i];
        assert LabelsOf(translation, lines[1..i + 1]) == labelList + [field];
        assert (labelList + [field])[..|labelList|] == labelList;
        labelList := labelList + [field];
        noAtoms := noAtoms + 1;
        if field != "-" {
          noAtomsCentral := noAtomsCentral + 1;
        }
        i := i + 1;
      }
      ok := i < |lines|;
    }

    /** The inner loop of `rename_labels`: every value `from` becomes `to`. */
    method RelabelValues(from: string, to: string)
      modifies this
      ensures alignment == Relabel(old(alignment), from, to)
      ensures labelData == old(labelData) && labelList == old(labelList)
      ensures noAtoms == old(noAtoms) && noAtomsCentral == old(noAtomsCentral) && noFragments == old(noFragments)
    {
      var keys := alignment.Keys;
      while keys != {}
        invariant keys <= old(alignment).Keys && alignment.Keys == old(alignment).Keys
        invariant forall k :: k in alignment ==>
          alignment[k] == if k in keys then old(alignment)[k] else Relabel(old(alignment), from, to)[k]
        invariant labelData == old(labelData) && labelList == old(labelList)
        invariant noAtoms == old(noAtoms) && noAtomsCentral == old(noAtomsCentral) && noFragments == old(noFragments)
        decreases keys
      {
        var key :| key in keys;
        if alignment[key] == Label(from) {
          alignment := alignment[key := Label(to)];
        }
        keys := keys - {key};
      }
    }

    /** `rename_labels(label, suffix)`; false where the script raises. */
    method RenameLabels(key: string, suffix: string) returns (ok: bool)
      modifies this
      ensures ok == Rename(old(Tables(labelList, alignment)), key, suffix).Some?
      ensures ok ==> Tables(labelList, alignment) == Rename(old(Tables(labelList, alignment)), key, suffix).value
      ensures labelData == old(labelData)
      ensures noAtoms == old(noAtoms) && noAtomsCentral == old(noAtomsCentral) && noFragments == old(noFragments)
    {
      if key !in alignment || !alignment[key].Label? {
        return false;
      }
      var value := alignment[key].name;
      if value == "-" || value == "" {
        return true;
      }
      var atoms := Split(value, "-");
      ghost var t0 := Tables(labelList, alignment);
      var i := 0;
      while i < |atoms|
        invariant i <= |atoms|
        invariant RenameUpTo(t0, atoms, suffix, i) == Some(Tables(labelList, alignment))
        invariant labelData == old(labelData)
        invariant noAtoms == old(noAtoms) && noAtomsCentral == old(noAtomsCentral) && noFragments == old(noFragments)
      {
        var rlabel := atoms[i];
        var newRlabel := NewRLabel(rlabel, suffix, i);
        var k := IndexOf(labelList, rlabel);
        if k.None? {
          RenameUpToFails(t0, atoms, suffix, i + 1, |atoms|);
          return false;
        }
        labelList := labelList[k.value := newRlabel];
        alignment := alignment[rlabel := Label(rlabel)];
        RelabelValues(rlabel, newRlabel);
        i := i + 1;
      }
      ok := true;
    }

    /** `make_alignment_dict` with the central group's row of the table. */
    method MakeAlignmentDict(row: CentralRow) returns (ok: bool)
      modifies this
      ensures ok == AlignmentOf(old(labelList), row).Some?
      ensures ok ==> Tables(labelList, alignment) == AlignmentOf(old(labelList), row).value
      ensures labelData == old(labelData)
      ensures noAtoms == old(noAtoms) && noAtomsCentral == old(noAtomsCentral) && noFragments == old(noFragments)
    {
      alignment := InitialAlignment(row);
      ok := RenameLabels("R", "-R");
      if ok {
        ok := RenameLabels("r", "-r");
      }
    }

    /** The reading part of `__init__`: `read_coord_file`, which starts with
        `atoms_to_labels`, then `make_alignment_dict`. */
    method ReadFiles(labelLines: seq<string>, coordinateLines: seq<string>, row: CentralRow) returns (ok: bool)
      modifies this
      ensures ok == AlignmentTables(labelLines, coordinateLines, row).Some?
      ensures ok ==> Tables(labelList, alignment) == AlignmentTables(labelLines, coordinateLines, row).value
      ensures ok ==> noAtoms == |labelList| && noAtomsCentral == CountOther(labelList, "-")
      ensures labelData == old(labelData) && noFragments == old(noFragments)
    {
      if |labelLines| < 2 {
        return false;
      }
      var translation := AtomsToLabels(Split(labelLines[0], ","), Split(labelLines[1], ","));
      ok := ReadCoordFile(translation, coordinateLines);
      if !ok {
        return;
      }
      ghost var list := labelList;
      ok := MakeAlignmentDict(row);
      if ok {
        AlignmentOfShape(list, row);
      }
    }

    /** `get_index_alignment_atom`: the first index of the position's label
        in the label list; `None` where Python raises. */
    function GetIndexAlignmentAtom(position: string): (r: Option<nat>)
      reads this
      ensures r.Some? <==> position in alignment && alignment[position].Label? && alignment[position].name in labelList
      ensures r.Some? ==>
        r.value < |labelList| && labelList[r.value] == alignment[position].name &&
        forall j :: 0 <= j < r.value ==> labelList[j] != alignment[position].name
    {
      if position in alignment && alignment[position].Label? then IndexOf(labelList, alignment[position].name)
      else None
    }
  }

  /** `AlignmentSettings(WORKDIR, coordinate_file, central, contact)`, with
      the label file, the coordinate file and the central group's row. */
  method NewAlignmentSettings(workdir: string, coordinateFile: string, central: Option<string>, contact: Option<string>,
                              labelLines: seq<string>, coordinateLines: seq<string>, row: CentralRow)
    returns (r: Result<AlignmentSettings>)
    ensures r.Ok? <==> ParseNames(coordinateFile, central, contact).Ok? &&
                       AlignmentTables(labelLines, coordinateLines, row).Some?
    ensures r.Ok? ==>
      fresh(r.value) &&
      Tables(r.value.labelList, r.value.alignment) == AlignmentTables(labelLines, coordinateLines, row).value &&
      r.value.noAtoms == |r.value.labelList| && r.value.noAtomsCentral == CountOther(r.value.labelList, "-") &&
      r.value.labelData == LabelDataFile(coordinateFile)
  {
    var s := NewSettings(workdir, coordinateFile, central, contact);
    if s.Err? {
      return Err(s.error);
    }
    var a := new AlignmentSettings(s.value, coordinateFile);
    var ok := a.ReadFiles(labelLines, coordinateLines, row);
    if !ok {
      return Err("the label or coordinate file is malformed");
    }
    return Ok(a);
  }
}
