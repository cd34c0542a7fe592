/** `src/scripts/classes/Radii.py`: van der Waals and covalent radii looked
    up in the radii table and remembered per element symbol. */
module RadiiTable {
  import opened Wrappers
  import opened Text

  /** One row of the radii csv. */
  datatype RadiiRow = RadiiRow(symbol: string, vdwRadius: real, covRadius: real)

  /** `radii_df[radii_df.symbol == symbol]`: the rows of `symbol`, in table order. */
  function Matching(table: seq<RadiiRow>, symbol: string): (r: seq<RadiiRow>)
    ensures |r| <= |table|
    ensures forall k :: 0 <= k < |r| ==> r[k] in table && r[k].symbol == symbol
    decreases |table|
  {
    if table == [] then []
    else
      var rest := Matching(table[..|table| - 1], symbol);
      if table[|table| - 1].symbol == symbol then rest + [table[|table| - 1]] else rest
  }

  /** A symbol that no row has matches nothing. */
  lemma {:induction false} MatchingAbsent(table: seq<RadiiRow>, symbol: string)
    requires forall k :: 0 <= k < |table| ==> table[k].symbol != symbol
    ensures Matching(table, symbol) == []
    decreases |table|
  {
    if table != [] {
      MatchingAbsent(table[..|table| - 1], symbol);
    }
  }

  /** A symbol that exactly one row has matches that row alone. */
  lemma {:induction false} MatchingUnique(table: seq<RadiiRow>, symbol: string, i: nat)
    requires i < |table| && table[i].symbol == symbol
    requires forall k :: 0 <= k < |table| && k != i ==> table[k].symbol != symbol
    ensures Matching(table, symbol) == [table[i]]
    decreases |table|
  {
    var p := table[..|table| - 1];
    if i == |table| - 1 {
      MatchingAbsent(p, symbol);
    } else {
      MatchingUnique(p, symbol, i);
    }
  }

  const VdwMissing := "You're trying to look up vdw radius of element that is not in bondi's list."
  const CovMissing := "You're trying to look up cov radius of element that is not in bondi's list."

  /** One read of the table for the van der Waals radius: the radius of the
      single row of `symbol`, or the failed assertion when there is no row
      or more than one. */
  function VdwOf(table: seq<RadiiRow>, symbol: string): (r: Result<real>)
    ensures r.Ok? <==> |Matching(table, symbol)| == 1
    ensures r.Ok? ==> exists row :: row in table && row.symbol == symbol && row.vdwRadius == r.value
    ensures r.Err? ==> r.error == VdwMissing
  {
    var m := Matching(table, symbol);
    if |m| == 1 then Ok(m[0].vdwRadius) else Err(VdwMissing)
  }

  /** The same read for the covalent radius. */
  function CovOf(table: seq<RadiiRow>, symbol: string): (r: Result<real>)
    ensures r.Ok? <==> |Matching(table, symbol)| == 1
    ensures r.Ok? ==> exists row :: row in table && row.symbol == symbol && row.covRadius == r.value
    ensures r.Err? ==> r.error == CovMissing
  {
    var m := Matching(table, symbol);
    if |m| == 1 then Ok(m[0].covRadius) else Err(CovMissing)
  }

  /** The element whose van der Waals radius `get_vdw_distance_contact`
      reports: carbon for a ring centroid (in any letter case), otherwise
      the reference point itself. */
  function ContactSymbol(contactRp: string): (r: string)
    ensures Lower(contactRp) == "centroid" ==> r == "C"
    ensures Lower(contactRp) != "centroid" ==> r == contactRp
  {
    if Lower(contactRp) == "centroid" then "C" else contactRp
  }

  /** The symbol of a row that is the only one with that symbol is found:
      the lookup gives that row's radii. */
  lemma LookupUnique(table: seq<RadiiRow>, i: nat)
    requires i < |table|
    requires forall k :: 0 <= k < |table| && k != i ==> table[k].symbol != table[i].symbol
    ensures VdwOf(table, table[i].symbol) == Ok(table[i].vdwRadius)
    ensures CovOf(table, table[i].symbol) == Ok(table[i].covRadius)
  {
    MatchingUnique(table, table[i].symbol, i);
  }

  /** The class: the file name stands for the table it holds, which is read
      again on every miss and is the same each time; the two dictionaries
      remember what was read. */
  class Radii {
    const table: seq<RadiiRow>
    var vdwRadii: map<string, real>
    var covRadii: map<string, real>

    /** Every remembered radius is what a read of the table gives. */
    ghost predicate Valid()
      reads this
    {
      (forall s :: s in vdwRadii ==> VdwOf(table, s) == Ok(vdwRadii[s])) &&
      (forall s :: s in covRadii ==> CovOf(table, s) == Ok(covRadii[s]))
    }

    /** `Radii(RADII_CSV)`: both dictionaries start empty. */
    constructor(table: seq<RadiiRow>)
      ensures Valid()
      ensures this.table == table && vdwRadii == map[] && covRadii == map[]
    {
      this.table := table;
      vdwRadii := map[];
      covRadii := map[];
    }

    /** `get_vdw_radius`: the remembered radius, or the one read from the
        table, which is then remembered; a failed read changes nothing. */
    method GetVdwRadius(symbol: string) returns (r: Result<real>)
      requires Valid()
      modifies this
      ensures Valid()
      ensures r == VdwOf(table, symbol)
      ensures covRadii == old(covRadii)
      ensures vdwRadii == if r.Ok? then old(vdwRadii)[symbol := r.value] else old(vdwRadii)
      ensures r.Ok? ==> symbol in vdwRadii
      ensures forall s :: s in old(vdwRadii) ==> s in vdwRadii && vdwRadii[s] == old(vdwRadii)[s]
    {
      if symbol !in vdwRadii {
        var read := VdwOf(table, symbol);
        if read.Err? {
          return read;
        }
        vdwRadii := vdwRadii[symbol := read.value];
      }
      r := Ok(vdwRadii[symbol]);
    }

    /** `get_cov_radius`: the same with the covalent dictionary, which is the
        only one it touches. */
    method GetCovRadius(symbol: string) returns (r: Result<real>)
      requires Valid()
      modifies this
      ensures Valid()
      ensures r == CovOf(table, symbol)
      ensures vdwRadii == old(vdwRadii)
      ensures covRadii == if r.Ok? then old(covRadii)[symbol := r.value] else old(covRadii)
      ensures r.Ok? ==> symbol in covRadii
      ensures forall s :: s in old(covRadii) ==> s in covRadii && covRadii[s] == old(covRadii)[s]
    {
      if symbol !in covRadii {
        var read := CovOf(table, symbol);
        if read.Err? {
          return read;
        }
        covRadii := covRadii[symbol := read.value];
      }
      r := Ok(covRadii[symbol]);
    }

    /** `get_vdw_distance_contact`: the van der Waals radius of the contact
        group's reference point, carbon's for a ring centroid, remembered as
        `get_vdw_radius` remembers it. */
    method GetVdwDistanceContact(contactRp: string) returns (r: Result<real>)
      requires Valid()
      modifies this
      ensures Valid() && covRadii == old(covRadii)
      ensures r == VdwOf(table, ContactSymbol(contactRp))
      ensures vdwRadii == if r.Ok? then old(vdwRadii)[ContactSymbol(contactRp) := r.value] else old(vdwRadii)
    {
      if Lower(contactRp) == "centroid" {
        r := GetVdwRadius("C");
      } else {
        r := GetVdwRadius(contactRp);
      }
    }
  }

  /** Remembering makes no difference: two lookups of the same symbol, with
      any lookups between them, give the same answer, the one a fresh read
      of the table gives. */
  method LookupTwice(radii: Radii, symbol: string, other: string) returns (first: Result<real>, second: Result<real>)
    requires radii.Valid()
    modifies radii
    ensures first == second && first == VdwOf(radii.table, symbol)
  {
    first := radii.GetVdwRadius(symbol);
    var _ := radii.GetCovRadius(other);
    var _ := radii.GetVdwRadius(other);
    second := radii.GetVdwRadius(symbol);
  }
}
