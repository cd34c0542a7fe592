/** `LoadArgsFromFile`: command line arguments read from a file, merged into
    the namespace without overriding arguments that were given on the
    command line.

    The file is given by its lines; the argument parser is a parameter,
    from the list of words of the file to the attributes it sets. */
module LoadArgs {
  import opened Wrappers
  import opened Text

  /** Every line stripped of surrounding blanks. */
  function StripLines(lines: seq<string>): (r: seq<string>)
    ensures |r| == |lines|
  {
    if lines == [] then [] else [Strip(lines[0])] + StripLines(lines[1..])
  }

  /** The argument list read from the file: the stripped lines joined with
      single spaces, split on blanks. */
  function ArgWords(lines: seq<string>): seq<string>
  {
    Words(Join(StripLines(lines), " "))
  }

  /** The words of every line, line after line. */
  function WordsPerLine(lines: seq<string>): seq<string>
  {
    if lines == [] then [] else Words(Strip(lines[0])) + WordsPerLine(lines[1..])
  }

  /** Joining the lines with blanks never glues two words together nor
      splits one: the argument list is the words of each line in turn. */
  lemma {:induction false} ArgWordsPerLine(lines: seq<string>)
    ensures ArgWords(lines) == WordsPerLine(lines)
  {
    if |lines| == 1 {
      assert Join(StripLines(lines), " ") == Strip(lines[0]);
      assert WordsPerLine(lines) == Words(Strip(lines[0])) + [];
    } else if |lines| > 1 {
      var stripped := StripLines(lines);
      assert stripped[1..] == StripLines(lines[1..]);
      var rest := Join(stripped[1..], " ");
      assert Join(stripped, " ") == Strip(lines[0]) + " " + rest;
      WordsSpaced(Strip(lines[0]), rest);
      ArgWordsPerLine(lines[1..]);
    }
  }

  /** The namespace after the merge: an attribute that is already set (not
      `None`) keeps its value, any other attribute the file sets takes the
      file's value. */
  function Merge<V>(attrs: map<string, Option<V>>, data: map<string, Option<V>>): (r: map<string, Option<V>>)
    ensures r.Keys == attrs.Keys + data.Keys
    ensures forall k :: k in attrs && attrs[k].Some? ==> r[k] == attrs[k]
    ensures forall k :: k in data && (k !in attrs || attrs[k].None?) ==> r[k] == data[k]
    ensures forall k :: k in attrs && k !in data ==> r[k] == attrs[k]
  {
    map k | k in attrs.Keys + data.Keys ::
      if k in attrs && (attrs[k].Some? || k !in data) then attrs[k] else data[k]
  }

  /** Loading the same file a second time changes nothing. */
  lemma MergeIdempotent<V>(attrs: map<string, Option<V>>, data: map<string, Option<V>>)
    ensures Merge(Merge(attrs, data), data) == Merge(attrs, data)
  {
    var once := Merge(attrs, data);
    var twice := Merge(once, data);
    forall k | k in twice
      ensures twice[k] == once[k]
    {
    }
  }

  /** The target namespace of the argument parser. */
  class Namespace<V> {
    var attrs: map<string, Option<V>>

    constructor (attrs: map<string, Option<V>>)
      ensures this.attrs == attrs
    {
      this.attrs := attrs;
    }

    /** The loop of `LoadArgsFromFile.__call__` over the attributes parsed
        from the file. */
    method MergeFrom(data: map<string, Option<V>>)
      modifies this
      ensures attrs == Merge(old(attrs), data)
    {
      var keys := data.Keys;
      while keys != {}
        invariant keys <= data.Keys
        invariant attrs.Keys == old(attrs).Keys + (data.Keys - keys)
        invariant forall k :: k in attrs ==>
          attrs[k] == if k in keys || k !in data then old(attrs)[k] else Merge(old(attrs), data)[k]
        decreases keys
      {
        var k :| k in keys;
        if k !in attrs || attrs[k].None? {
          attrs := attrs[k := data[k]];
        }
        keys := keys - {k};
      }
    }
  }

  /** `LoadArgsFromFile.__call__`: parse the file's words and merge. */
  method LoadArgsFromFile<V>(ns: Namespace<V>, lines: seq<string>, parse: seq<string> -> map<string, Option<V>>)
    modifies ns
    ensures ns.attrs == Merge(old(ns.attrs), parse(ArgWords(lines)))
  {
    var contents := Join(StripLines(lines), " ");
    var data := parse(Words(contents));
    ns.MergeFrom(data);
  }
}
