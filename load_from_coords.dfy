/** `load_from_coords.py`: rewrites the lines of a `.cor` coordinate file
    into csv lines, one per atom, labelled with the entry and fragment of
    the most recent "FRAG" header and with an atom label made unique within
    its fragment. */
module LoadFromCoords {
  import opened Wrappers
  import opened Text
  import opened Lists
  import opened UniqueLabels

  /** `check_if_label_exists(label, labels)` on the list of labels already
      used in the fragment. */
  function CheckIfLabelExists(name: string, labels: seq<string>): (r: string)
    ensures r !in labels
    ensures name !in labels ==> r == name
    ensures |r| >= |name| && r == name + As(|r| - |name|)
    ensures forall k :: 0 <= k < |r| - |name| ==> name + As(k) in labels
    ensures |r| - |name| <= |labels|
  {
    var taken := set l | l in labels;
    FreeLabelBound(name, taken);
    ElementsBound(labels);
    FreeLabel(name, taken)
  }

  /** The characters `strip("%*")` removes from an atom label. */
  const Markers: set<char> := {'%', '*'}

  /** Entry and fragment number taken from a "FRAG" header line. */
  datatype Header = Header(entry: string, fragmentNo: string)

  /** The variables of the reading loop: the current header, the labels used
      so far in the current fragment, and the csv lines written so far. */
  datatype Reader = Reader(header: Option<Header>, atomLabels: seq<string>, newLines: seq<string>)

  const Start := Reader(None, [], [])

  /** A header line: the stripped first and third `**`-separated fields. */
  function ReadHeader(line: string): (r: Option<Header>)
    ensures r.Some? <==> |Split(line, "**")| >= 3
    ensures r.Some? ==>
      r.value.entry == Strip(Split(line, "**")[0]) && r.value.fragmentNo == Strip(Split(line, "**")[2])
  {
    var information := Split(line, "**");
    if |information| < 3 then None
    else Some(Header(Strip(information[0]), Strip(information[2])))
  }

  /** A coordinate without its uncertainty: the text before the first "(". */
  function Coordinate(word: string): (r: string)
    ensures IsPrefix(r, word) && !Contains(r, "(")
  {
    FirstField(word, "(");
    Split(word, "(")[0]
  }

  /** The csv line written for one atom. */
  function AtomLine(h: Header, name: string, x: string, y: string, z: string): string
  {
    h.entry + h.fragmentNo + "," + name + "," + x + "," + y + "," + z + "," + "\n"
  }

  /** One pass of the loop.  A header starts a new fragment with no labels
      used; an atom line emits one csv line and records its label.  An atom
      line before any header, or a line with too few fields, raises in the
      script and is an error here. */
  function Step(st: Reader, line: string): Result<Reader>
  {
    if Contains(line, "FRAG") then
      var h := ReadHeader(line);
      if h.None? then Err("header line has fewer than three '**' fields")
      else Ok(Reader(h, [], st.newLines))
    else
      var information := Words(line);
      if st.header.None? then Err("atom line before the first header")
      else if |information| < 4 then Err("atom line has fewer than four fields")
      else
        var name := CheckIfLabelExists(StripChars(information[0], Markers), st.atomLabels);
        var x, y, z := Coordinate(information[1]), Coordinate(information[2]), Coordinate(information[3]);
        Ok(Reader(st.header, st.atomLabels + [name], st.newLines + [AtomLine(st.header.value, name, x, y, z)]))
  }

  /** The loop over all remaining lines; the first error stops it. */
  function Run(st: Reader, lines: seq<string>): Result<Reader>
    decreases |lines|
  {
    if lines == [] then Ok(st)
    else
      match Step(st, lines[0])
      case Err(e) => Err(e)
      case Ok(next) => Run(next, lines[1..])
  }

  /** `load_fragments_from_coords`: the csv lines for all atoms. */
  method LoadFragmentsFromCoords(lines: seq<string>) returns (r: Result<seq<string>>)
    ensures r.Ok? <==> Run(Start, lines).Ok?
    ensures r.Ok? ==> r.value == Run(Start, lines).value.newLines
  {
    var header: Option<Header> := None;
    var atomLabels: seq<string> := [];
    var newLines: seq<string> := [];
    var i := 0;
    while i < |lines|
      invariant 0 <= i <= |lines|
      invariant Run(Start, lines) == Run(Reader(header, atomLabels, newLines), lines[i..])
    {
      var line := lines[i];
      if Contains(line, "FRAG") {
        atomLabels := [];
        var information := Split(line, "**");
        if |information| < 3 {
          return Err("header line has fewer than three '**' fields");
        }
        header := Some(Header(Strip(information[0]), Strip(information[2])));
      } else {
        var information := Words(line);
        if header.None? {
          return Err("atom line before the first header");
        }
        if |information| < 4 {
          return Err("atom line has fewer than four fields");
        }
        var name := StripChars(information[0], Markers);
        name := CheckIfLabelExists(name, atomLabels);
        atomLabels := atomLabels + [name];
        var x, y, z := Coordinate(information[1]), Coordinate(information[2]), Coordinate(information[3]);
        newLines := newLines + [AtomLine(header.value, name, x, y, z)];
      }
      i := i + 1;
    }
    return Ok(newLines);
  }

  /** Number of lines that are not headers. */
  function AtomLineCount(lines: seq<string>): (n: nat)
    ensures n <= |lines|
  {
    if lines == [] then 0
    else (if Contains(lines[0], "FRAG") then 0 else 1) + AtomLineCount(lines[1..])
  }

  /** Every atom line yields exactly one csv line, and lines already written
      are kept. */
  lemma {:induction false} RunCountsLines(st: Reader, lines: seq<string>)
    requires Run(st, lines).Ok?
    ensures var out := Run(st, lines).value.newLines;
      |out| == |st.newLines| + AtomLineCount(lines) && out[..|st.newLines|] == st.newLines
    decreases |lines|
  {
    if lines != [] {
      var next := Step(st, lines[0]).value;
      RunCountsLines(next, lines[1..]);
      var out := Run(st, lines).value.newLines;
      assert out[..|next.newLines|] == next.newLines;
      assert next.newLines[..|st.newLines|] == st.newLines;
    }
  }

  /** The labels used in the current fragment never repeat: they start empty
      at every header and each new one is made free of the earlier ones. */
  lemma {:induction false} RunKeepsLabelsDistinct(st: Reader, lines: seq<string>)
    requires Distinct(st.atomLabels)
    requires Run(st, lines).Ok?
    ensures Distinct(Run(st, lines).value.atomLabels)
    decreases |lines|
  {
    if lines != [] {
      var next := Step(st, lines[0]).value;
      if !Contains(lines[0], "FRAG") {
        var name := next.atomLabels[|next.atomLabels| - 1];
        assert name !in st.atomLabels;
        assert next.atomLabels == st.atomLabels + [name];
      }
      RunKeepsLabelsDistinct(next, lines[1..]);
    }
  }

  /** What one atom line contributes: the label is the marker-stripped first
      field made free of the fragment's earlier labels (so it differs from
      all of them), and the csv line carries the current header and the
      coordinates cut before their uncertainty. */
  lemma StepAtomLine(st: Reader, line: string)
    requires !Contains(line, "FRAG") && Step(st, line).Ok?
    ensures var w := Words(line);
      var next := Step(st, line).value;
      var name := CheckIfLabelExists(StripChars(w[0], Markers), st.atomLabels);
      |w| >= 4 && st.header.Some? && next.header == st.header
      && name !in st.atomLabels
      && next.atomLabels == st.atomLabels + [name]
      && next.newLines == st.newLines + [AtomLine(st.header.value, name, Coordinate(w[1]), Coordinate(w[2]), Coordinate(w[3]))]
  {
  }

  /** A header line resets the used labels and keeps the written lines. */
  lemma StepHeaderLine(st: Reader, line: string)
    requires Contains(line, "FRAG") && Step(st, line).Ok?
    ensures var next := Step(st, line).value;
      next.header == ReadHeader(line) && next.header.Some?
      && next.atomLabels == [] && next.newLines == st.newLines
  {
  }
}
