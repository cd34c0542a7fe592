/** The settings objects of the pipeline: the names of the central and
    contact groups, the result file names derived from them, and, for the
    alignment scripts, the label list of a fragment and the alignment
    dictionary of the central group.

    Files are given by their contents: the two first lines of the label
    file, the lines of the coordinate file, and the row of the central
    groups table for this central group.  Directory creation is not
    modelled. */
module SettingsModel {
  import opened Wrappers
  import opened Text
  import opened Lists

  /** The file's base name: the text after the last backslash without its
      last extension (`rsplit('\\')[-1].rsplit('.', 1)[0]`). */
  function BaseName(coordinateFile: string): string
  {
    BeforeLast(AfterLast(coordinateFile, '\\'), '.')
  }

  /** A path `dir\name.ext` whose last component has one dot has base name
      `name`. */
  lemma BaseNameOf(dir: string, name: string, ext: string)
    requires '\\' !in name && '\\' !in ext && '.' !in ext
    ensures BaseName(dir + "\\" + name + "." + ext) == name
  {
    var file := dir + "\\" + name + "." + ext;
    var last := name + "." + ext;
    AfterLastOf(dir, last, '\\');
    assert AfterLast(file, '\\') == last by {
      assert file == dir + ['\\'] + last;
    }
    BeforeLastOf(name, ext, '.');
  }

  /** The text after the last `c` of `a + [c] + b`, where `b` has no `c`, is `b`. */
  lemma AfterLastOf(a: string, b: string, c: char)
    requires c !in b
    ensures AfterLast(a + [c] + b, c) == b
  {
    TrailingOtherOf(a, b, c);
    var s := a + [c] + b;
    assert s[|s| - |b|..] == b;
  }

  lemma {:induction false} TrailingOtherOf(a: string, b: string, c: char)
    requires c !in b
    ensures TrailingOther(a + [c] + b, c) == |b|
    decreases |b|
  {
    var s := a + [c] + b;
    if b == [] {
      assert s[|s| - 1] == c;
    } else {
      var p := b[..|b| - 1];
      assert s[..|s| - 1] == a + [c] + p;
      assert s[|s| - 1] == b[|b| - 1];
      TrailingOtherOf(a, p, c);
    }
  }

  /** The text before the last `c` of `a + [c] + b`, where `b` has no `c`, is `a`. */
  lemma BeforeLastOf(a: string, b: string, c: char)
    requires c !in b
    ensures BeforeLast(a + [c] + b, c) == a
  {
    var s := a + [c] + b;
    AfterLastOf(a, b, c);
    assert s[..|s| - |b| - 1] == a;
  }

  /** The group names and the result directory prefix a settings object
      is built with. */
  datatype Names = Names(central: string, contact: string, name: string, extraPrefix: string)

  /** The names `Settings.__init__` settles on.  Without explicit names the
      base name must read `<central>_<contact>...`; with only one of the two
      the script stops. */
  function ParseNames(coordinateFile: string, central: Option<string>, contact: Option<string>): (r: Result<Names>)
    ensures r.Ok? ==> r.value.name == BaseName(coordinateFile)
    ensures central.Some? && contact.Some? ==>
      r == Ok(Names(central.value, contact.value, BaseName(coordinateFile),
                    central.value + "_" + contact.value + "_"))
    ensures central.Some? != contact.Some? ==> r.Err?
    ensures central.None? && contact.None? ==>
      (r.Ok? <==> |Split(BaseName(coordinateFile), "_")| >= 2) &&
      (r.Ok? ==> r.value.extraPrefix == "" &&
                 r.value.central == Split(BaseName(coordinateFile), "_")[0] &&
                 r.value.contact == Split(BaseName(coordinateFile), "_")[1])
  {
    var name := BaseName(coordinateFile);
    if central.None? && contact.None? then
      var fields := Split(name, "_");
      if |fields| < 2 then Err("list index out of range")
      else Ok(Names(fields[0], fields[1], name, ""))
    else if central.None? || contact.None? then
      Err("Please specify both the central name and contact name.")
    else
      Ok(Names(central.value, contact.value, name, central.value + "_" + contact.value + "_"))
  }

  /** A base name `<central>_<contact>` or `<central>_<contact>_<rest>`
      with no `_` inside the two names yields those names. */
  lemma ParseNamesFromFile(dir: string, name: string, ext: string, central: string, contact: string, rest: string)
    requires name == central + "_" + contact + rest
    requires '_' !in central && '_' !in contact
    requires rest == "" || rest[0] == '_'
    requires '\\' !in name && '\\' !in ext && '.' !in ext
    ensures var r := ParseNames(dir + "\\" + name + "." + ext, None, None);
      r.Ok? && r.value.central == central && r.value.contact == contact && r.value.name == name
  {
    BaseNameOf(dir, name, ext);
    FieldsOfName(central, contact, rest);
  }

  /** The first two `_`-fields of `<central>_<contact><rest>`. */
  lemma FieldsOfName(central: string, contact: string, rest: string)
    requires '_' !in central && '_' !in contact
    requires rest == "" || rest[0] == '_'
    ensures var f := Split(central + "_" + contact + rest, "_");
      |f| >= 2 && f[0] == central && f[1] == contact
  {
    var tail := contact + rest;
    assert central + "_" + contact + rest == central + "_" + tail;
    SplitAtFirst(central, tail);
    HeadField(contact, rest);
  }

  /** The first `_`-field of `a + rest`, where `a` has no `_` and `rest` is
      empty or starts with `_`, is `a`. */
  lemma HeadField(a: string, rest: string)
    requires '_' !in a
    requires rest == "" || rest[0] == '_'
    ensures Split(a + rest, "_")[0] == a
  {
    if rest == "" {
      assert a + rest == a;
      SplitNone(a);
    } else {
      var more := rest[1..];
      assert a + rest == a + "_" + more;
      SplitAtFirst(a, more);
    }
  }

  /** Splitting `a + "_" + b` where `a` has no `_` gives `a` and the fields of `b`. */
  lemma SplitAtFirst(a: string, b: string)
    requires '_' !in a
    ensures Split(a + "_" + b, "_") == [a] + Split(b, "_")
  {
    var s := a + "_" + b;
    assert OccursAt(s, "_", |a|);
    ContainsAt(s, "_", |a|);
    var i := FindFirst(s, "_");
    assert forall j :: 0 <= j < |a| ==> s[j] == a[j] && s[j] != '_';
    assert s[i..i + 1][0] == s[i] == '_';
    assert i >= |a|;
    assert s[..i] == a;
    assert s[i + 1..] == b;
  }

  /** A string without `_` is a single field. */
  lemma SplitNone(a: string)
    requires '_' !in a
    ensures Split(a, "_") == [a]
  {
    forall j: nat
      ensures !OccursAt(a, "_", j)
    {
      if j + 1 <= |a| {
        assert a[j..j + 1][0] == a[j];
      }
    }
    NoOccurrence(a, "_");
  }

  /** The settings shared by all scripts (`Settings`). */
  class Settings {
    var workdir: string
    var coordinateFile: string
    var centralName: string
    var contactName: string
    var outputFolderCentralGroup: string
    var outputFolderSpecific: string
    var outputfilePrefix: string
    var resolution: real
    var threshold: real
    var contactRp: string

    /** `Settings.__init__` once the names are settled (see `NewSettings`). */
    constructor (workdir: string, coordinateFile: string, names: Names)
      ensures this.workdir == workdir && this.coordinateFile == coordinateFile
      ensures centralName == names.central && contactName == names.contact
      ensures outputFolderCentralGroup == workdir + "\\results\\pairs\\" + names.central + "\\"
      ensures outputFolderSpecific == outputFolderCentralGroup + names.extraPrefix + names.name + "\\"
      ensures outputfilePrefix == outputFolderSpecific + names.central + "_" + names.contact
    {
      this.workdir := workdir;
      this.coordinateFile := coordinateFile;
      centralName := names.central;
      contactName := names.contact;
      new;
      SetResultDirectory(names.name, names.extraPrefix);
    }

    /** `set_result_directory`: the result folders and the prefix of every
        result file of this pair. */
    method SetResultDirectory(name: string, extraPrefix: string)
      modifies this
      ensures outputFolderCentralGroup == workdir + "\\results\\pairs\\" + centralName + "\\"
      ensures outputFolderSpecific == outputFolderCentralGroup + extraPrefix + name + "\\"
      ensures outputfilePrefix == outputFolderSpecific + centralName + "_" + contactName
      ensures workdir == old(workdir) && coordinateFile == old(coordinateFile)
      ensures centralName == old(centralName) && contactName == old(contactName)
      ensures resolution == old(resolution) && threshold == old(threshold) && contactRp == old(contactRp)
    {
      outputFolderCentralGroup := workdir + "\\results\\pairs\\" + centralName + "\\";
      outputFolderSpecific := outputFolderCentralGroup + extraPrefix + name + "\\";
      outputfilePrefix := outputFolderSpecific + centralName + "_" + contactName;
    }

    method SetResolution(resolution: real)
      modifies this
      ensures this.resolution == resolution
      ensures workdir == old(workdir) && coordinateFile == old(coordinateFile)
      ensures centralName == old(centralName) && contactName == old(contactName)
      ensures outputFolderCentralGroup == old(outputFolderCentralGroup)
      ensures outputFolderSpecific == old(outputFolderSpecific) && outputfilePrefix == old(outputfilePrefix)
      ensures threshold == old(threshold) && contactRp == old(contactRp)
    {
      this.resolution := resolution;
    }

    method SetThreshold(threshold: real)
      modifies this
      ensures this.threshold == threshold
      ensures workdir == old(workdir) && coordinateFile == old(coordinateFile)
      ensures centralName == old(centralName) && contactName == old(contactName)
      ensures outputFolderCentralGroup == old(outputFolderCentralGroup)
      ensures outputFolderSpecific == old(outputFolderSpecific) && outputfilePrefix == old(outputfilePrefix)
      ensures resolution == old(resolution) && contactRp == old(contactRp)
    {
      this.threshold := threshold;
    }

    method SetContactReferencePoint(atom: string)
      modifies this
      ensures contactRp == atom
      ensures workdir == old(workdir) && coordinateFile == old(coordinateFile)
      ensures centralName == old(centralName) && contactName == old(contactName)
      ensures outputFolderCentralGroup == old(outputFolderCentralGroup)
      ensures outputFolderSpecific == old(outputFolderSpecific) && outputfilePrefix == old(outputfilePrefix)
      ensures resolution == old(resolution) && threshold == old(threshold)
    {
      contactRp := atom;
    }

    /** The result files of the pair, each the prefix plus its own suffix. */
    function ResultFile(kind: ResultKind): string
      reads this
    {
      outputfilePrefix + Suffix(kind)
    }

    function CentralGroupsCsvFilename(): string reads this { workdir + "\\src\\files\\central_groups.csv" }
    function MethylCsvFilename(): string reads this { workdir + "\\src\\files\\methylmodel.csv" }
    function FingerprintFilename(): string reads this { workdir + "\\src\\files\\fingerprints.csv" }
    function RadiiCsvName(): string reads this { workdir + "\\src\\files\\radii.csv" }

    function DirectionalityResultsFilename(): string
      reads this
    {
      outputFolderCentralGroup + centralName + "_directionality_results.csv"
    }

    function CoordinateDfKey(): string reads this { contactRp }

    /** Different kinds of result file of one pair never share a name. */
    lemma ResultFilesDistinct(k1: ResultKind, k2: ResultKind)
      ensures ResultFile(k1) == ResultFile(k2) <==> k1 == k2
    {
      SuffixesDistinct(outputfilePrefix, k1, k2);
    }
  }

  /** The result files `get_*_filename` name, by their fixed suffix. */
  datatype ResultKind = Aligned | Structures | CoordinatesContact | Density | AvgFragment

  function Suffix(kind: ResultKind): string
  {
    match kind
    case Aligned => "_aligned.csv"
    case Structures => "_structures.csv"
    case CoordinatesContact => "_coordinates_contact.hdf"
    case Density => "_density.hdf"
    case AvgFragment => "_avg_fragment.csv"
  }

  lemma SuffixesDistinct(prefix: string, k1: ResultKind, k2: ResultKind)
    ensures prefix + Suffix(k1) == prefix + Suffix(k2) <==> k1 == k2
  {
    var a, b := prefix + Suffix(k1), prefix + Suffix(k2);
    if a == b {
      assert a[|prefix|..] == Suffix(k1);
      assert b[|prefix|..] == Suffix(k2);
    }
  }

  /** `Settings(WORKDIR, coordinate_file, central, contact)`: fails where
      the script stops or an index is out of range. */
  method NewSettings(workdir: string, coordinateFile: string, central: Option<string>, contact: Option<string>)
    returns (r: Result<Settings>)
    ensures r.Ok? <==> ParseNames(coordinateFile, central, contact).Ok?
    ensures r.Ok? ==>
      var names := ParseNames(coordinateFile, central, contact).value;
      fresh(r.value) &&
      r.value.centralName == names.central && r.value.contactName == names.contact &&
      r.value.outputfilePrefix == workdir + "\\results\\pairs\\" + names.central + "\\" +
                                  names.extraPrefix + names.name + "\\" + names.central + "_" + names.contact
  {
    var names := ParseNames(coordinateFile, central, contact);
    if names.Err? {
      return Err(names.error);
    }
    var s := new Settings(workdir, coordinateFile, names.value);
    return Ok(s);
  }
}
