/** `src/scripts/classes/Fingerprint.py`: the counter that walks through the
    fingerprint plots of one central group, the first of them over all
    atoms and then one per row of the fingerprint table. */
module FingerprintPlots {
  import opened Wrappers
  import opened Text

  /** One row of the fingerprint csv. */
  datatype FingerprintRow = FingerprintRow(central: string, labels: string, description: string)

  /** `df[df.central == central].reset_index()`: the rows of one central
      group, in file order. */
  function RowsFor(rows: seq<FingerprintRow>, central: string): (r: seq<FingerprintRow>)
    ensures |r| <= |rows|
    ensures forall k :: 0 <= k < |r| ==> r[k] in rows && r[k].central == central
    decreases |rows|
  {
    if rows == [] then []
    else
      var rest := RowsFor(rows[..|rows| - 1], central);
      if rows[|rows| - 1].central == central then rest + [rows[|rows| - 1]] else rest
  }

  /** Every row of the central group is kept. */
  lemma {:induction false} RowsForComplete(rows: seq<FingerprintRow>, central: string, i: nat)
    requires i < |rows| && rows[i].central == central
    ensures rows[i] in RowsFor(rows, central)
    decreases |rows|
  {
    if i < |rows| - 1 {
      RowsForComplete(rows[..|rows| - 1], central, i);
    }
  }

  const NoSuchRow := "can only convert an array of size 1 to a Python scalar"

  class Fingerprint {
    const central: string
    const specific: seq<FingerprintRow>
    var counter: int

    /** The counter never goes below its start. */
    ghost predicate Valid()
      reads this
    {
      -1 <= counter
    }

    /** `Fingerprint(settings)` on the rows of the fingerprint csv: the
        counter starts at -1, the plot over all atoms. */
    constructor(rows: seq<FingerprintRow>, central: string)
      ensures Valid()
      ensures this.central == central && specific == RowsFor(rows, central) && counter == -1
    {
      this.central := central;
      specific := RowsFor(rows, central);
      counter := -1;
    }

    /** `get_labels`: "" for the plot over all atoms, otherwise the labels
        of the current row; a counter past the rows selects nothing. */
    function GetLabels(): (r: Result<string>)
      reads this
      ensures counter == -1 ==> r == Ok("")
      ensures counter != -1 ==> (r.Ok? <==> 0 <= counter < |specific|)
      ensures counter != -1 && r.Ok? ==> r.value == specific[counter].labels
    {
      if counter == -1 then Ok("")
      else if 0 <= counter < |specific| then Ok(specific[counter].labels)
      else Err(NoSuchRow)
    }

    /** `get_label_list`: the labels of the current row split on '&'. */
    function GetLabelList(): (r: Result<seq<string>>)
      reads this
      ensures r.Ok? <==> 0 <= counter < |specific|
      ensures r.Ok? ==> Join(r.value, "&") == specific[counter].labels
      ensures r.Ok? ==> forall k :: 0 <= k < |r.value| ==> !Contains(r.value[k], "&")
    {
      if 0 <= counter < |specific| then
        var labels := specific[counter].labels;
        SplitJoin(labels, "&");
        SplitFieldsFree(labels, "&");
        Ok(Split(labels, "&"))
      else Err(NoSuchRow)
    }

    /** `get_description`: "closest atom" for the plot over all atoms,
        otherwise the description of the current row. */
    function GetDescription(): (r: Result<string>)
      reads this
      requires Valid()
      ensures counter == -1 ==> r == Ok("closest atom")
      ensures counter != -1 ==> (r.Ok? <==> counter < |specific|)
      ensures counter != -1 && r.Ok? ==> r.value == specific[counter].description
    {
      if counter == -1 then Ok("closest atom")
      else if counter < |specific| then Ok(specific[counter].description)
      else Err("single positional indexer is out-of-bounds")
    }

    /** `not_done`: rows are left. */
    function NotDone(): (r: bool)
      reads this
      ensures r <==> counter < |specific|
    {
      counter < |specific|
    }

    /** `next`: one plot further. */
    method Next()
      requires Valid()
      modifies this
      ensures Valid() && counter == old(counter) + 1
    {
      counter := counter + 1;
    }
  }

  /** While plots are left, every lookup of the plot succeeds. */
  lemma LookupsWhileNotDone(fp: Fingerprint)
    requires fp.Valid() && fp.NotDone()
    ensures fp.GetLabels().Ok? && fp.GetDescription().Ok?
    ensures fp.counter != -1 ==> fp.GetLabelList().Ok?
  {
  }

  /** The walk of `make_fingerprint_plots`: the plot over all atoms, then
      `next` and one plot per row while `not_done`; gives the labels of
      each plot in turn. */
  method PlotAll(fp: Fingerprint) returns (plotted: seq<string>)
    requires fp.Valid() && fp.counter == -1
    modifies fp
    ensures plotted == [""] + seq(|fp.specific|, k requires 0 <= k < |fp.specific| => fp.specific[k].labels)
    ensures !fp.NotDone() && fp.counter == |fp.specific|
  {
    var first := fp.GetLabels();
    plotted := [first.value];
    fp.Next();
    while fp.NotDone()
      invariant fp.Valid() && 0 <= fp.counter <= |fp.specific|
      invariant |plotted| == fp.counter + 1 && plotted[0] == ""
      invariant forall k :: 0 <= k < fp.counter ==> plotted[k + 1] == fp.specific[k].labels
      decreases |fp.specific| - fp.counter
    {
      var labels := fp.GetLabels();
      plotted := plotted + [labels.value];
      fp.Next();
    }
  }
}
