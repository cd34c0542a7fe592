/** `code/helpers/geometry_helpers.py`: the averaged central group of the
    first version of the pipeline.  The atoms of the first fragment are
    numbered per symbol, every atom of a later fragment takes the number of
    the nearest first-fragment atom, and each numbered atom is placed at the
    mean of the positions recorded for it. */
module ReferenceFragment {
  import opened Wrappers
  import opened Vectors
  import opened Lists
  import opened Text
  import opened Fragments

  /** One row of the frame: `id`, `atom_symbol`, `atom_x/y/z` and
      `in_central_group`. */
  datatype CentralRow = CentralRow(id: string, symbol: string, pos: Vec3, inCentralGroup: bool)

  function RowPos(row: CentralRow): Vec3 { row.pos }

  /** `fragment_df[fragment_df.atom_symbol == atom]`. */
  function SymbolRows(rows: seq<CentralRow>, s: string): (r: seq<CentralRow>)
    ensures forall row :: row in r <==> row in rows && row.symbol == s
    decreases |rows|
  {
    if rows == [] then []
    else
      var n := |rows| - 1;
      assert rows == rows[..n] + [rows[n]];
      SymbolRows(rows[..n], s) + (if rows[n].symbol == s then [rows[n]] else [])
  }

  /** `pd.concat(frames)`: the rows of each symbol of `atoms`, symbol after
      symbol. */
  function Selected(rows: seq<CentralRow>, atoms: seq<string>): seq<CentralRow>
    decreases |atoms|
  {
    if atoms == [] then []
    else Selected(rows, atoms[..|atoms| - 1]) + SymbolRows(rows, atoms[|atoms| - 1])
  }

  /** The rows whose symbol is one of `atoms`, in row order. */
  function InAtoms(rows: seq<CentralRow>, atoms: seq<string>): (r: seq<CentralRow>)
    decreases |rows|
  {
    if rows == [] then []
    else
      var n := |rows| - 1;
      InAtoms(rows[..n], atoms) + (if rows[n].symbol in atoms then [rows[n]] else [])
  }

  /** `calculate_center`: the mean position of the concatenated rows; the
      mean of no rows is not a number, which is left out as `None`. */
  function CalculateCenter(rows: seq<CentralRow>, atoms: seq<string>): (r: Option<Vec3>)
    ensures r.None? <==> Selected(rows, atoms) == []
  {
    var result := Selected(rows, atoms);
    if result == [] then None else Some(Mean(MapSeq(result, RowPos)))
  }

  /** How often `row` occurs among the rows of symbol `s`. */
  lemma {:induction false} SymbolRowsCount(rows: seq<CentralRow>, s: string, row: CentralRow)
    ensures multiset(SymbolRows(rows, s))[row] == if row.symbol == s then multiset(rows)[row] else 0
    decreases |rows|
  {
    if rows != [] {
      var n := |rows| - 1;
      assert rows == rows[..n] + [rows[n]];
      SymbolRowsCount(rows[..n], s, row);
    }
  }

  /** How often `row` occurs among the rows of the symbols of `atoms`. */
  lemma {:induction false} InAtomsCount(rows: seq<CentralRow>, atoms: seq<string>, row: CentralRow)
    ensures multiset(InAtoms(rows, atoms))[row] == if row.symbol in atoms then multiset(rows)[row] else 0
    decreases |rows|
  {
    if rows != [] {
      var n := |rows| - 1;
      assert rows == rows[..n] + [rows[n]];
      InAtomsCount(rows[..n], atoms, row);
    }
  }

  /** With each symbol listed once, the concatenation holds each selected
      row as often as the frame does. */
  lemma {:induction false} SelectedCount(rows: seq<CentralRow>, atoms: seq<string>, row: CentralRow)
    requires Distinct(atoms)
    ensures multiset(Selected(rows, atoms))[row] == if row.symbol in atoms then multiset(rows)[row] else 0
    decreases |atoms|
  {
    if atoms != [] {
      var n := |atoms| - 1;
      var p := atoms[..n];
      assert atoms == p + [atoms[n]];
      assert Distinct(p);
      assert atoms[n] !in p by {
        forall i | 0 <= i < n
          ensures p[i] != atoms[n]
        {
          assert p[i] == atoms[i];
        }
      }
      SelectedCount(rows, p, row);
      SymbolRowsCount(rows, atoms[n], row);
    }
  }

  /** With each symbol listed once, the centre is the mean position of the
      rows whose symbol is listed; there is one exactly when such a row
      exists. */
  lemma CenterOfListed(rows: seq<CentralRow>, atoms: seq<string>)
    requires Distinct(atoms)
    ensures CalculateCenter(rows, atoms).Some? <==> InAtoms(rows, atoms) != []
    ensures CalculateCenter(rows, atoms).Some? ==>
              CalculateCenter(rows, atoms).value == Mean(MapSeq(InAtoms(rows, atoms), RowPos))
  {
    var a := Selected(rows, atoms);
    var b := InAtoms(rows, atoms);
    forall row
      ensures multiset(a)[row] == multiset(b)[row]
    {
      SelectedCount(rows, atoms, row);
      InAtomsCount(rows, atoms, row);
    }
    assert multiset(a) == multiset(b);
    assert |a| == |multiset(a)| == |multiset(b)| == |b|;
    if a != [] {
      MapPermutation(a, b, RowPos);
      MeanPermutation(MapSeq(a, RowPos), MapSeq(b, RowPos));
    }
  }

  /** One entry of `settings.central_group_atoms`: a symbol and how many
      atoms of it the group holds. */
  datatype Amount = Amount(symbol: string, amount: nat)

  /** `s1`, …, `sn`. */
  function Numbered(s: string, n: nat): (r: seq<string>)
    ensures |r| == n
    ensures forall i :: 0 <= i < n ==> r[i] == s + NatToString(i + 1)
  {
    seq(n, i requires 0 <= i < n => s + NatToString(i + 1))
  }

  /** code/helpers/geometry_helpers.py:39-44: the labels of the group, numbered per symbol from 1, in
      the order of the settings. */
  function TemplateLabels(group: seq<Amount>): seq<string>
    decreases |group|
  {
    if group == [] then []
    else
      var n := |group| - 1;
      TemplateLabels(group[..n]) + Numbered(group[n].symbol, group[n].amount)
  }

  /** Every number from 1 to the amount of a symbol gives a label. */
  lemma {:induction false} TemplateHas(group: seq<Amount>, j: nat, k: nat)
    requires j < |group| && 1 <= k <= group[j].amount
    ensures group[j].symbol + NatToString(k) in TemplateLabels(group)
    decreases |group|
  {
    var n := |group| - 1;
    if j < n {
      TemplateHas(group[..n], j, k);
    } else {
      assert Numbered(group[n].symbol, group[n].amount)[k - 1] == group[j].symbol + NatToString(k);
    }
  }

  /** The symbols of the group. */
  function Symbols(group: seq<Amount>): set<string>
  {
    set j | 0 <= j < |group| :: group[j].symbol
  }

  /** Line 40: a counter at 1 for every symbol. */
  function StartCounts(group: seq<Amount>): (r: map<string, nat>)
    ensures r.Keys == Symbols(group)
    ensures forall s :: s in r ==> r[s] == 1
  {
    map s | s in Symbols(group) :: 1
  }

  /** The number of rows of symbol `s`. */
  function CountSymbol(rows: seq<CentralRow>, s: string): nat
    decreases |rows|
  {
    if rows == [] then 0
    else CountSymbol(rows[..|rows| - 1], s) + (if rows[|rows| - 1].symbol == s then 1 else 0)
  }

  /** The label of row `j` of the first fragment: its symbol and one more
      than the number of earlier rows of that symbol. */
  function FirstLabel(rows: seq<CentralRow>, j: nat): string
    requires j < |rows|
  {
    rows[j].symbol + NatToString(CountSymbol(rows[..j], rows[j].symbol) + 1)
  }

  /** Earlier rows of a symbol are fewer than later ones. */
  lemma {:induction false} CountGrows(rows: seq<CentralRow>, j1: nat, j2: nat, s: string)
    requires j1 < j2 <= |rows| && rows[j1].symbol == s
    ensures CountSymbol(rows[..j1], s) < CountSymbol(rows[..j2], s)
    decreases j2
  {
    assert rows[..j2][..j2 - 1] == rows[..j2 - 1];
    if j2 - 1 > j1 {
      CountGrows(rows, j1, j2 - 1, s);
    } else {
      assert rows[..j2 - 1] == rows[..j1];
    }
  }

  /** Two atoms of one symbol in the first fragment get different labels. */
  lemma FirstLabelsDistinct(rows: seq<CentralRow>, j1: nat, j2: nat)
    requires j1 < j2 < |rows| && rows[j1].symbol == rows[j2].symbol
    ensures FirstLabel(rows, j1) != FirstLabel(rows, j2)
  {
    var s := rows[j1].symbol;
    CountGrows(rows, j1, j2, s);
    var a := NatToString(CountSymbol(rows[..j1], s) + 1);
    var b := NatToString(CountSymbol(rows[..j2], s) + 1);
    assert DigitsValue(a) != DigitsValue(b);
    assert (s + a)[|s|..] == a && (s + b)[|s|..] == b;
  }

  /** A Python dictionary from labels to positions with its insertion
      order. */
  datatype Dict = Dict(keys: seq<string>, values: map<string, Vec3>)

  /** The order lists every key once. */
  ghost predicate ValidDict(d: Dict)
  {
    Distinct(d.keys) && forall k :: k in d.values <==> k in d.keys
  }

  /** `d[k] = v`: a new key goes to the end, an old one keeps its place. */
  function Put(d: Dict, k: string, v: Vec3): (r: Dict)
    requires ValidDict(d)
    ensures ValidDict(r) && r.values == d.values[k := v]
    ensures r.keys == if k in d.keys then d.keys else d.keys + [k]
  {
    if k in d.values then Dict(d.keys, d.values[k := v])
    else
      DistinctAppend(d.keys, k);
      Dict(d.keys + [k], d.values[k := v])
  }

  /** The dictionary after storing the position of each row under its label. */
  function Recorded(d: Dict, labels: seq<string>, rows: seq<CentralRow>): (r: Dict)
    requires ValidDict(d) && |labels| == |rows|
    ensures ValidDict(r)
    decreases |rows|
  {
    if rows == [] then d
    else
      var n := |rows| - 1;
      Put(Recorded(d, labels[..n], rows[..n]), labels[n], rows[n].pos)
  }

  /** One more row adds one to the count of its symbol only. */
  lemma CountStep(rows: seq<CentralRow>, j: nat)
    requires j < |rows|
    ensures forall t :: CountSymbol(rows[..j + 1], t) == CountSymbol(rows[..j], t) + (if rows[j].symbol == t then 1 else 0)
  {
    assert rows[..j + 1][..j] == rows[..j];
  }

  /** `count_dict` after the first `j` rows: a counter for every symbol of
      the group, one more than the rows of that symbol seen so far. */
  predicate CountsAt(counts: map<string, nat>, group: seq<Amount>, rows: seq<CentralRow>, j: nat)
    requires j <= |rows|
  {
    counts.Keys == Symbols(group) &&
    (forall k :: 0 <= k < j ==> rows[k].symbol in counts) &&
    forall t :: t in counts ==> counts[t] == CountSymbol(rows[..j], t) + 1
  }

  /** Counting row `j` keeps the counters right. */
  lemma CountsNext(counts: map<string, nat>, group: seq<Amount>, rows: seq<CentralRow>, j: nat)
    requires j < |rows| && CountsAt(counts, group, rows, j) && rows[j].symbol in counts
    ensures CountsAt(counts[rows[j].symbol := counts[rows[j].symbol] + 1], group, rows, j + 1)
  {
    CountStep(rows, j);
  }

  /** The labels given so far are those of the first rows. */
  predicate LabelsAt(labels: seq<string>, rows: seq<CentralRow>)
    requires |labels| <= |rows|
  {
    forall k :: 0 <= k < |labels| ==> labels[k] == FirstLabel(rows, k)
  }

  /** Labelling row `j` extends the labels of the first rows. */
  lemma LabelsNext(labels: seq<string>, rows: seq<CentralRow>, j: nat, l: string)
    requires j == |labels| < |rows| && LabelsAt(labels, rows) && l == FirstLabel(rows, j)
    ensures LabelsAt(labels + [l], rows)
  {
  }

  /** Storing one more row extends the recorded dictionary by one `Put`. */
  lemma RecordedStep(d: Dict, labels: seq<string>, rows: seq<CentralRow>, l: string, row: CentralRow)
    requires ValidDict(d) && |labels| == |rows|
    ensures Recorded(d, labels + [l], rows + [row]) == Put(Recorded(d, labels, rows), l, row.pos)
  {
    assert (labels + [l])[..|labels|] == labels;
    assert (rows + [row])[..|rows|] == rows;
  }

  /** `new_df`: the cell of fragment `id` and atom label `l` holds the
      columns `lx`, `ly`, `lz`; a missing cell is not a number. */
  type Cells = map<(string, string), Vec3>

  /** `add_coordinates_to_df` for row after row: the row's position is
      written to the cell of fragment `id` under the row's label, a later
      write replacing an earlier one. */
  function Overwrite(cells: Cells, id: string, labels: seq<string>, rows: seq<CentralRow>): Cells
    requires |labels| == |rows|
    decreases |rows|
  {
    if rows == [] then cells
    else
      var n := |rows| - 1;
      Overwrite(cells, id, labels[..n], rows[..n])[(id, labels[n]) := rows[n].pos]
  }

  /** Writing one more row is one more cell assignment. */
  lemma OverwriteStep(cells: Cells, id: string, labels: seq<string>, rows: seq<CentralRow>, l: string, row: CentralRow)
    requires |labels| == |rows|
    ensures Overwrite(cells, id, labels + [l], rows + [row]) == Overwrite(cells, id, labels, rows)[(id, l) := row.pos]
  {
    assert (labels + [l])[..|labels|] == labels;
    assert (rows + [row])[..|rows|] == rows;
  }

  /** The cell of a label holds the position of the last row given that
      label. */
  lemma {:induction false} OverwriteLast(cells: Cells, id: string, labels: seq<string>, rows: seq<CentralRow>, j: nat)
    requires |labels| == |rows| && j < |rows|
    requires forall k :: j < k < |rows| ==> labels[k] != labels[j]
    ensures (id, labels[j]) in Overwrite(cells, id, labels, rows)
    ensures Overwrite(cells, id, labels, rows)[(id, labels[j])] == rows[j].pos
    decreases |rows|
  {
    var n := |rows| - 1;
    if j < n {
      OverwriteLast(cells, id, labels[..n], rows[..n], j);
    }
  }

  /** A cell of another fragment, or of a label no row is given, keeps what
      it held. */
  lemma {:induction false} OverwriteUntouched(cells: Cells, id: string, labels: seq<string>, rows: seq<CentralRow>, key: (string, string))
    requires |labels| == |rows|
    requires key.0 != id || key.1 !in labels
    ensures key in Overwrite(cells, id, labels, rows) <==> key in cells
    ensures key in cells ==> Overwrite(cells, id, labels, rows)[key] == cells[key]
    decreases |rows|
  {
    if rows != [] {
      var n := |rows| - 1;
      assert key.1 !in labels ==> key.1 !in labels[..n] by {
        assert labels == labels[..n] + [labels[n]];
      }
      OverwriteUntouched(cells, id, labels[..n], rows[..n], key);
    }
  }

  /** Two tables that agree on a cell of fragment `id` still agree on it
      after the same rows are written to both. */
  lemma {:induction false} OverwriteAgree(c1: Cells, c2: Cells, id: string, labels: seq<string>, rows: seq<CentralRow>, key: (string, string))
    requires |labels| == |rows|
    requires key in c1 <==> key in c2
    requires key in c1 ==> c1[key] == c2[key]
    ensures key in Overwrite(c1, id, labels, rows) <==> key in Overwrite(c2, id, labels, rows)
    ensures key in Overwrite(c1, id, labels, rows) ==> Overwrite(c1, id, labels, rows)[key] == Overwrite(c2, id, labels, rows)[key]
    decreases |rows|
  {
    if rows != [] {
      var n := |rows| - 1;
      OverwriteAgree(c1, c2, id, labels[..n], rows[..n], key);
    }
  }

  /** The labels of the first fragment, row by row. */
  function FirstLabels(rows: seq<CentralRow>): (r: seq<string>)
    ensures |r| == |rows|
    ensures forall j :: 0 <= j < |rows| ==> r[j] == FirstLabel(rows, j)
  {
    seq(|rows|, j requires 0 <= j < |rows| => FirstLabel(rows, j))
  }

  /** The failure of `count_dict[row.atom_symbol]` for a symbol the group
      does not list. */
  const UnknownSymbol := "KeyError"

  /** The labels of the first fragment, the dictionary `closest` and the
      table with the first fragment's cells written. */
  datatype Labelled = Labelled(labels: seq<string>, closest: Dict, cells: Cells)

  const EmptyDict := Dict([], map[])

  /** Every row's symbol is a key of `count_dict`. */
  predicate Known(rows: seq<CentralRow>, group: seq<Amount>)
  {
    forall j :: 0 <= j < |rows| ==> rows[j].symbol in Symbols(group)
  }

  /** The first fragment labelled: each row under its symbol and running
      count, in the table and in `closest`; a symbol the group does not
      list fails. */
  function FirstStage(id: string, rows: seq<CentralRow>, group: seq<Amount>): (r: Result<Labelled>)
    ensures r.Ok? <==> Known(rows, group)
    ensures r.Err? ==> r.error == UnknownSymbol
    ensures r.Ok? ==> ValidDict(r.value.closest) && |r.value.labels| == |rows|
  {
    if !Known(rows, group) then Err(UnknownSymbol)
    else
      var labels := FirstLabels(rows);
      Ok(Labelled(labels, Recorded(EmptyDict, labels, rows), Overwrite(map[], id, labels, rows)))
  }

  /** A first fragment with a row leaves `closest` non-empty. */
  lemma FirstStageKeys(id: string, rows: seq<CentralRow>, group: seq<Amount>)
    requires rows != [] && Known(rows, group)
    ensures FirstStage(id, rows, group).value.closest.keys != []
  {
    var labels := FirstLabels(rows);
    var n := |rows| - 1;
    assert labels[n] in Recorded(EmptyDict, labels, rows).keys;
  }

  /** The loop state after the first `j` rows of the first fragment. */
  ghost predicate LabelledAt(id: string, rows: seq<CentralRow>, group: seq<Amount>, j: nat, counts: map<string, nat>, state: Labelled)
  {
    j <= |rows| && |state.labels| == j &&
    CountsAt(counts, group, rows, j) && LabelsAt(state.labels, rows) &&
    state.closest == Recorded(EmptyDict, state.labels, rows[..j]) &&
    state.cells == Overwrite(map[], id, state.labels, rows[..j])
  }

  /** Labelling row `j` under its symbol and running count keeps the loop
      state. */
  lemma LabelledNext(id: string, rows: seq<CentralRow>, group: seq<Amount>, j: nat, counts: map<string, nat>, state: Labelled)
    requires j < |rows| && LabelledAt(id, rows, group, j, counts, state) && rows[j].symbol in counts
    ensures var s := rows[j].symbol;
            var atomLabel := s + NatToString(counts[s]);
            LabelledAt(id, rows, group, j + 1, counts[s := counts[s] + 1],
                       Labelled(state.labels + [atomLabel],
                                Put(state.closest, atomLabel, rows[j].pos),
                                state.cells[(id, atomLabel) := rows[j].pos]))
  {
    var s := rows[j].symbol;
    var atomLabel := s + NatToString(counts[s]);
    assert atomLabel == FirstLabel(rows, j);
    LabelsNext(state.labels, rows, j, atomLabel);
    CountsNext(counts, group, rows, j);
    assert rows[..j + 1] == rows[..j] + [rows[j]];
    RecordedStep(EmptyDict, state.labels, rows[..j], atomLabel, rows[j]);
    OverwriteStep(map[], id, state.labels, rows[..j], atomLabel, rows[j]);
  }

  /** After the last row the loop state is the labelled first fragment. */
  lemma LabelledDone(id: string, rows: seq<CentralRow>, group: seq<Amount>, counts: map<string, nat>, state: Labelled)
    requires LabelledAt(id, rows, group, |rows|, counts, state)
    ensures FirstStage(id, rows, group) == Ok(state)
  {
    assert rows[..|rows|] == rows;
    assert Known(rows, group);
    assert state.labels == FirstLabels(rows);
  }

  /** code/helpers/geometry_helpers.py:50-61: each atom of the first fragment `id` is labelled with
      its symbol and its running count, its position is written to the
      table under that label and remembered in `closest`. */
  method LabelFirstFragment(id: string, rows: seq<CentralRow>, group: seq<Amount>) returns (r: Result<Labelled>)
    ensures r == FirstStage(id, rows, group)
  {
    var counts := StartCounts(group);
    var labels: seq<string> := [];
    var closest := EmptyDict;
    var cells: Cells := map[];
    for j := 0 to |rows|
      invariant LabelledAt(id, rows, group, j, counts, Labelled(labels, closest, cells))
    {
      var s := rows[j].symbol;
      if s !in counts {
        assert !Known(rows, group) by {
          assert rows[j].symbol !in Symbols(group);
        }
        return Err(UnknownSymbol);
      }
      var number := counts[s];
      var atomLabel := s + NatToString(number);
      LabelledNext(id, rows, group, j, counts, Labelled(labels, closest, cells));
      cells := cells[(id, atomLabel) := rows[j].pos];
      closest := Put(closest, atomLabel, rows[j].pos);
      labels := labels + [atomLabel];
      counts := counts[s := number + 1];
    }
    LabelledDone(id, rows, group, counts, Labelled(labels, closest, cells));
    r := Ok(Labelled(labels, closest, cells));
  }

  /** Line 89: the distance from `p` to the position stored under `k`. */
  function Gap(values: map<string, Vec3>, k: string, p: Vec3, sqrt: real -> real): real
    requires k in values
  {
    sqrt(SqDist(p, values[k]))
  }

  /** code/helpers/geometry_helpers.py:84-93: the key of `closest` nearest to `p`, scanning the keys in
      order and switching only to a strictly nearer one; none for an empty
      dictionary. */
  function NearestOf(keys: seq<string>, values: map<string, Vec3>, p: Vec3, sqrt: real -> real): (r: Option<string>)
    requires forall i :: 0 <= i < |keys| ==> keys[i] in values
    ensures r.Some? <==> keys != []
    ensures r.Some? ==> r.value in keys
    decreases |keys|
  {
    if keys == [] then None
    else
      var n := |keys| - 1;
      var best := NearestOf(keys[..n], values, p, sqrt);
      if best.None? || Gap(values, keys[n], p, sqrt) < Gap(values, best.value, p, sqrt) then Some(keys[n])
      else best
  }

  /** The key found is as near as any, and every key as near as it comes
      no earlier: ties go to the first key. */
  lemma {:induction false} NearestOfSpec(keys: seq<string>, values: map<string, Vec3>, p: Vec3, sqrt: real -> real, i: nat)
    requires forall k :: 0 <= k < |keys| ==> keys[k] in values
    requires i < |keys|
    ensures Gap(values, NearestOf(keys, values, p, sqrt).value, p, sqrt) <= Gap(values, keys[i], p, sqrt)
    ensures Gap(values, keys[i], p, sqrt) <= Gap(values, NearestOf(keys, values, p, sqrt).value, p, sqrt) ==>
              NearestOf(keys, values, p, sqrt).value in keys[..i + 1]
    decreases |keys|
  {
    var n := |keys| - 1;
    var prefix := keys[..n];
    var best := NearestOf(prefix, values, p, sqrt);
    if i < n {
      NearestOfSpec(prefix, values, p, sqrt, i);
      assert prefix[..i + 1] == keys[..i + 1];
    } else if best.Some? {
      var m :| 0 <= m < n && prefix[m] == best.value;
      NearestOfSpec(prefix, values, p, sqrt, m);
      assert keys[..i + 1] == keys;
    }
  }

  /** The nearest-label loop over `closest.items()`; `math.inf` as the
      starting distance is a missing candidate. */
  method NearestLabel(closest: Dict, p: Vec3, sqrt: real -> real) returns (r: Option<string>)
    requires ValidDict(closest)
    ensures r == NearestOf(closest.keys, closest.values, p, sqrt)
  {
    var keys := closest.keys;
    var distance := 0.0;
    r := None;
    for i := 0 to |keys|
      invariant r == NearestOf(keys[..i], closest.values, p, sqrt)
      invariant r.Some? ==> r.value in closest.values && distance == Gap(closest.values, r.value, p, sqrt)
    {
      assert keys[..i + 1][..i] == keys[..i];
      var value := closest.values[keys[i]];
      var d := sqrt(SqDist(p, value));
      if r.None? || d < distance {
        distance := d;
        r := Some(keys[i]);
      }
    }
    assert keys[..|keys|] == keys;
  }

  /** The rows of fragment `id` (`central_group_df[central_group_df.id == label]`). */
  function RowsWithId(rows: seq<CentralRow>, id: string): (r: seq<CentralRow>)
    ensures forall row :: row in r <==> row in rows && row.id == id
    decreases |rows|
  {
    if rows == [] then []
    else
      var n := |rows| - 1;
      assert rows == rows[..n] + [rows[n]];
      RowsWithId(rows[..n], id) + (if rows[n].id == id then [rows[n]] else [])
  }

  /** The `id` column. */
  function IdsOf(rows: seq<CentralRow>): (r: seq<string>)
    ensures |r| == |rows|
    ensures forall i :: 0 <= i < |rows| ==> r[i] == rows[i].id
  {
    seq(|rows|, i requires 0 <= i < |rows| => rows[i].id)
  }

  /** The label each row is written under: the key of `closest` nearest to
      it. */
  function Choices(closest: Dict, rows: seq<CentralRow>, sqrt: real -> real): (r: seq<string>)
    requires ValidDict(closest) && (rows == [] || closest.keys != [])
    ensures |r| == |rows|
    ensures forall j :: 0 <= j < |rows| ==> Some(r[j]) == NearestOf(closest.keys, closest.values, rows[j].pos, sqrt)
  {
    seq(|rows|, j requires 0 <= j < |rows| => NearestOf(closest.keys, closest.values, rows[j].pos, sqrt).value)
  }

  /** The failure of `None + "x"` when `closest` is empty and no label is
      found. */
  const NoNearest := "unsupported operand type(s) for +: 'NoneType' and 'str'"

  /** code/helpers/geometry_helpers.py:81-95 for one later fragment: each row is written under its
      nearest label. */
  function FilledFragment(cells: Cells, id: string, rows: seq<CentralRow>, closest: Dict, sqrt: real -> real): (r: Result<Cells>)
    requires ValidDict(closest)
    ensures r.Ok? <==> rows == [] || closest.keys != []
    ensures r.Err? ==> r.error == NoNearest
  {
    if rows != [] && closest.keys == [] then Err(NoNearest)
    else Ok(Overwrite(cells, id, Choices(closest, rows, sqrt), rows))
  }

  /** The loop state after the first `j` rows of a later fragment. */
  ghost predicate FilledAt(cells: Cells, id: string, rows: seq<CentralRow>, closest: Dict, sqrt: real -> real, j: nat, chosen: seq<string>, c: Cells)
  {
    ValidDict(closest) && j <= |rows| && (closest.keys == [] ==> j == 0) &&
    chosen == Choices(closest, rows[..j], sqrt) && c == Overwrite(cells, id, chosen, rows[..j])
  }

  /** Writing row `j` under its nearest label keeps the loop state. */
  lemma FilledNext(cells: Cells, id: string, rows: seq<CentralRow>, closest: Dict, sqrt: real -> real, j: nat, chosen: seq<string>, c: Cells)
    requires j < |rows| && FilledAt(cells, id, rows, closest, sqrt, j, chosen, c) && closest.keys != []
    ensures var l := NearestOf(closest.keys, closest.values, rows[j].pos, sqrt).value;
            FilledAt(cells, id, rows, closest, sqrt, j + 1, chosen + [l], c[(id, l) := rows[j].pos])
  {
    var l := NearestOf(closest.keys, closest.values, rows[j].pos, sqrt).value;
    assert rows[..j + 1] == rows[..j] + [rows[j]];
    OverwriteStep(cells, id, chosen, rows[..j], l, rows[j]);
  }

  /** The loop over the rows of one later fragment. */
  method FillFragment(cells: Cells, id: string, rows: seq<CentralRow>, closest: Dict, sqrt: real -> real) returns (r: Result<Cells>)
    requires ValidDict(closest)
    ensures r == FilledFragment(cells, id, rows, closest, sqrt)
  {
    var c := cells;
    ghost var chosen: seq<string> := [];
    for j := 0 to |rows|
      invariant FilledAt(cells, id, rows, closest, sqrt, j, chosen, c)
    {
      var l := NearestLabel(closest, rows[j].pos, sqrt);
      if l.None? {
        return Err(NoNearest);
      }
      FilledNext(cells, id, rows, closest, sqrt, j, chosen, c);
      c := c[(id, l.value) := rows[j].pos];
      chosen := chosen + [l.value];
    }
    assert rows[..|rows|] == rows;
    r := Ok(c);
  }

  /** code/helpers/geometry_helpers.py:80-95: the later fragments `ids`, one after the other. */
  function FilledAll(cells: Cells, ids: seq<string>, central: seq<CentralRow>, closest: Dict, sqrt: real -> real): (r: Result<Cells>)
    requires ValidDict(closest)
    ensures r.Err? ==> r.error == NoNearest
    decreases |ids|
  {
    if ids == [] then Ok(cells)
    else
      var n := |ids| - 1;
      match FilledAll(cells, ids[..n], central, closest, sqrt)
      case Err(e) => Err(e)
      case Ok(c) => FilledFragment(c, ids[n], RowsWithId(central, ids[n]), closest, sqrt)
  }

  /** With a non-empty `closest` every row finds a label and no fragment
      fails. */
  lemma {:induction false} FilledAllOk(cells: Cells, ids: seq<string>, central: seq<CentralRow>, closest: Dict, sqrt: real -> real)
    requires ValidDict(closest) && closest.keys != []
    ensures FilledAll(cells, ids, central, closest, sqrt).Ok?
    decreases |ids|
  {
    if ids != [] {
      FilledAllOk(cells, ids[..|ids| - 1], central, closest, sqrt);
    }
  }

  /** The last fragment writes its rows over the table of the others. */
  lemma FilledAllLast(cells: Cells, ids: seq<string>, central: seq<CentralRow>, closest: Dict, sqrt: real -> real)
    requires ValidDict(closest) && closest.keys != [] && ids != []
    requires FilledAll(cells, ids, central, closest, sqrt).Ok?
    ensures var n := |ids| - 1;
            var rows := RowsWithId(central, ids[n]);
            FilledAll(cells, ids[..n], central, closest, sqrt).Ok? &&
            FilledAll(cells, ids, central, closest, sqrt).value ==
              Overwrite(FilledAll(cells, ids[..n], central, closest, sqrt).value, ids[n], Choices(closest, rows, sqrt), rows)
  {
  }

  /** Fragments other than `ids` keep their cells. */
  lemma {:induction false} FilledAllOther(cells: Cells, ids: seq<string>, central: seq<CentralRow>, closest: Dict, sqrt: real -> real, key: (string, string))
    requires ValidDict(closest) && closest.keys != [] && FilledAll(cells, ids, central, closest, sqrt).Ok?
    requires key.0 !in ids
    ensures key in FilledAll(cells, ids, central, closest, sqrt).value <==> key in cells
    ensures key in cells ==> FilledAll(cells, ids, central, closest, sqrt).value[key] == cells[key]
    decreases |ids|
  {
    if ids != [] {
      var n := |ids| - 1;
      FilledAllLast(cells, ids, central, closest, sqrt);
      assert key.0 !in ids[..n] by {
        assert forall i :: 0 <= i < n ==> ids[..n][i] == ids[i];
      }
      FilledAllOther(cells, ids[..n], central, closest, sqrt, key);
      var c := FilledAll(cells, ids[..n], central, closest, sqrt).value;
      var rows := RowsWithId(central, ids[n]);
      OverwriteUntouched(c, ids[n], Choices(closest, rows, sqrt), rows, key);
    }
  }

  /** Each later fragment's cells are exactly those its own rows write:
      the other fragments neither add to them nor change them. */
  lemma {:induction false} FilledAllAt(cells: Cells, ids: seq<string>, central: seq<CentralRow>, closest: Dict, sqrt: real -> real, k: nat, l: string)
    requires ValidDict(closest) && closest.keys != [] && FilledAll(cells, ids, central, closest, sqrt).Ok?
    requires Distinct(ids) && k < |ids|
    ensures var rows := RowsWithId(central, ids[k]);
            var own := Overwrite(cells, ids[k], Choices(closest, rows, sqrt), rows);
            var all := FilledAll(cells, ids, central, closest, sqrt).value;
            ((ids[k], l) in all <==> (ids[k], l) in own) &&
            ((ids[k], l) in all ==> all[(ids[k], l)] == own[(ids[k], l)])
    decreases |ids|
  {
    var n := |ids| - 1;
    var prefix := ids[..n];
    var key := (ids[k], l);
    FilledAllLast(cells, ids, central, closest, sqrt);
    var c := FilledAll(cells, prefix, central, closest, sqrt).value;
    var rows := RowsWithId(central, ids[n]);
    if k == n {
      assert ids[n] !in prefix by {
        forall i | 0 <= i < n
          ensures prefix[i] != ids[n]
        {
          assert prefix[i] == ids[i];
        }
      }
      FilledAllOther(cells, prefix, central, closest, sqrt, key);
      OverwriteAgree(c, cells, ids[n], Choices(closest, rows, sqrt), rows, key);
    } else {
      assert Distinct(prefix);
      assert prefix[k] == ids[k] && ids[k] != ids[n];
      FilledAllAt(cells, prefix, central, closest, sqrt, k, l);
      OverwriteUntouched(c, ids[n], Choices(closest, rows, sqrt), rows, key);
    }
  }

  /** One more fragment is one more `FilledFragment` after the others. */
  lemma FilledAllStep(cells: Cells, ids: seq<string>, i: nat, central: seq<CentralRow>, closest: Dict, sqrt: real -> real, c: Cells)
    requires ValidDict(closest) && i < |ids|
    requires FilledAll(cells, ids[..i], central, closest, sqrt) == Ok(c)
    ensures FilledAll(cells, ids[..i + 1], central, closest, sqrt) == FilledFragment(c, ids[i], RowsWithId(central, ids[i]), closest, sqrt)
  {
    assert ids[..i + 1][..i] == ids[..i];
  }

  /** A failure in the first fragments is the failure of all of them. */
  lemma {:induction false} FilledAllPrefixErr(cells: Cells, ids: seq<string>, m: nat, central: seq<CentralRow>, closest: Dict, sqrt: real -> real)
    requires ValidDict(closest) && m <= |ids|
    requires FilledAll(cells, ids[..m], central, closest, sqrt).Err?
    ensures FilledAll(cells, ids, central, closest, sqrt).Err?
    decreases |ids|
  {
    if m < |ids| {
      var n := |ids| - 1;
      assert ids[..n][..m] == ids[..m];
      FilledAllPrefixErr(cells, ids[..n], m, central, closest, sqrt);
    } else {
      assert ids[..m] == ids;
    }
  }

  /** `unique()[1:]`: the fragments after the first. */
  function Later(ids: seq<string>): (r: seq<string>)
    ensures |r| == if ids == [] then 0 else |ids| - 1
    ensures forall i :: 0 <= i < |r| ==> r[i] == ids[i + 1]
  {
    if ids == [] then [] else ids[1..]
  }

  /** `fill_coordinates`: every later fragment of the frame is written to
      the table. */
  method FillCoordinates(central: seq<CentralRow>, cells: Cells, closest: Dict, sqrt: real -> real) returns (r: Result<Cells>)
    requires ValidDict(closest)
    ensures r == FilledAll(cells, Later(Unique(IdsOf(central))), central, closest, sqrt)
  {
    r := FillFragments(cells, Later(Unique(IdsOf(central))), central, closest, sqrt);
  }

  /** The loop of code/helpers/geometry_helpers.py:80-95 over the fragments `ids`. */
  method FillFragments(cells: Cells, ids: seq<string>, central: seq<CentralRow>, closest: Dict, sqrt: real -> real) returns (r: Result<Cells>)
    requires ValidDict(closest)
    ensures r == FilledAll(cells, ids, central, closest, sqrt)
  {
    var c := cells;
    for i := 0 to |ids|
      invariant FilledAll(cells, ids[..i], central, closest, sqrt) == Ok(c)
    {
      FilledAllStep(cells, ids, i, central, closest, sqrt, c);
      var next := FillFragment(c, ids[i], RowsWithId(central, ids[i]), closest, sqrt);
      if next.Err? {
        FilledAllPrefixErr(cells, ids, i + 1, central, closest, sqrt);
        return next;
      }
      c := next.value;
    }
    assert ids[..|ids|] == ids;
    r := Ok(c);
  }

  /** The filled cells of the column of label `l`, fragment by fragment
      (`mean()` skips the missing ones). */
  function ColumnValues(cells: Cells, ids: seq<string>, l: string): (r: seq<Vec3>)
    ensures |r| <= |ids|
    decreases |ids|
  {
    if ids == [] then []
    else
      var n := |ids| - 1;
      ColumnValues(cells, ids[..n], l) + (if (ids[n], l) in cells then [cells[(ids[n], l)]] else [])
  }

  /** A column has values exactly when some fragment has its cell. */
  lemma {:induction false} ColumnValuesEmpty(cells: Cells, ids: seq<string>, l: string)
    ensures ColumnValues(cells, ids, l) == [] <==> forall i :: 0 <= i < |ids| ==> (ids[i], l) !in cells
    decreases |ids|
  {
    if ids != [] {
      var n := |ids| - 1;
      ColumnValuesEmpty(cells, ids[..n], l);
      assert forall i :: 0 <= i < n ==> ids[..n][i] == ids[i];
    }
  }

  /** `label[1]` of a one-character label. */
  const ShortLabel := "string index out of range"

  /** The mean of a column without values. */
  const EmptyColumn := "mean of an empty column"

  /** code/helpers/geometry_helpers.py:103-105: the atom of label `l` at the mean of its column. */
  function AtomFor(cells: Cells, ids: seq<string>, l: string): (r: Result<Atom>)
    ensures r.Ok? ==> r.value.props.name == l
  {
    if |l| < 2 then Err(ShortLabel)
    else
      var values := ColumnValues(cells, ids, l);
      if values == [] then Err(EmptyColumn) else Ok(NewAtom(l, Mean(values)))
  }

  /** A label has an atom exactly when it has two characters and some
      fragment has its cell; the atom sits at the mean of the column. */
  lemma AtomForSpec(cells: Cells, ids: seq<string>, l: string)
    ensures AtomFor(cells, ids, l).Ok? <==> |l| >= 2 && exists i :: 0 <= i < |ids| && (ids[i], l) in cells
    ensures AtomFor(cells, ids, l).Err? ==> AtomFor(cells, ids, l).error == if |l| < 2 then ShortLabel else EmptyColumn
    ensures AtomFor(cells, ids, l).Ok? ==> AtomFor(cells, ids, l).value.pos == Mean(ColumnValues(cells, ids, l))
  {
    ColumnValuesEmpty(cells, ids, l);
  }

  /** The first `i` labels have atoms, stored under their labels. */
  predicate Placed(table: map<string, Atom>, cells: Cells, ids: seq<string>, atoms: seq<string>, i: nat)
    requires i <= |atoms|
  {
    forall k :: 0 <= k < i ==>
      AtomFor(cells, ids, atoms[k]).Ok? && atoms[k] in table && table[atoms[k]] == AtomFor(cells, ids, atoms[k]).value
  }

  /** Storing the atom of label `i` places one more label. */
  lemma PlacedNext(table: map<string, Atom>, cells: Cells, ids: seq<string>, atoms: seq<string>, i: nat, atom: Atom)
    requires i < |atoms| && Placed(table, cells, ids, atoms, i) && AtomFor(cells, ids, atoms[i]) == Ok(atom)
    ensures Placed(table[atom.props.name := atom], cells, ids, atoms, i + 1)
  {
  }

  /** `pd.unique` of one more element. */
  lemma UniqueNext(s: seq<string>, i: nat)
    requires i < |s|
    ensures Unique(s[..i + 1]) == if s[i] in Unique(s[..i]) then Unique(s[..i]) else Unique(s[..i]) + [s[i]]
  {
    assert s[..i + 1][..i] == s[..i];
  }

  /** Every label has an atom. */
  predicate AllAtoms(cells: Cells, ids: seq<string>, atoms: seq<string>)
  {
    forall i :: 0 <= i < |atoms| ==> AtomFor(cells, ids, atoms[i]).Ok?
  }

  /** `e` is the failure of the first label without an atom. */
  ghost predicate FirstFailure(cells: Cells, ids: seq<string>, atoms: seq<string>, e: string)
  {
    exists i :: 0 <= i < |atoms| && AtomFor(cells, ids, atoms[i]) == Err(e) &&
                forall k :: 0 <= k < i ==> AtomFor(cells, ids, atoms[k]).Ok?
  }

  /** The id of the averaged fragment, `"allentries" + str(1)`. */
  const AverageId := "allentries1"

  /** The averaged fragment: its id, one atom per label in the order the
      labels first appear, each the atom of its column. */
  ghost predicate Averaged(f: Fragment, cells: Cells, ids: seq<string>, atoms: seq<string>)
    reads f
  {
    f.Valid() && f.id == AverageId && f.order == Unique(atoms) && f.centerAtom.None? &&
    Placed(f.atoms, cells, ids, atoms, |atoms|)
  }

  /** `make_fragment`: a fragment with an atom per label, in the order of
      the labels, each at the mean of its column. */
  method MakeFragment(atoms: seq<string>, ids: seq<string>, cells: Cells) returns (r: Result<Fragment>)
    ensures r.Ok? <==> AllAtoms(cells, ids, atoms)
    ensures r.Err? ==> FirstFailure(cells, ids, atoms, r.error)
    ensures r.Ok? ==> fresh(r.value) && Averaged(r.value, cells, ids, atoms)
  {
    var fragment := new Fragment("allentries", "1");
    for i := 0 to |atoms|
      invariant fragment.Valid() && fragment.id == AverageId && fragment.centerAtom.None?
      invariant fragment.order == Unique(atoms[..i])
      invariant Placed(fragment.atoms, cells, ids, atoms, i)
    {
      var atom := AtomFor(cells, ids, atoms[i]);
      if atom.Err? {
        assert FirstFailure(cells, ids, atoms, atom.error) by {
          assert forall k :: 0 <= k < i ==> AtomFor(cells, ids, atoms[k]).Ok?;
        }
        return Err(atom.error);
      }
      UniqueNext(atoms, i);
      PlacedNext(fragment.atoms, cells, ids, atoms, i, atom.value);
      fragment.AddAtom(atom.value);
    }
    assert atoms[..|atoms|] == atoms;
    r := Ok(fragment);
  }

  /** Line 32: the rows of the central groups (`df[df.in_central_group]`). */
  function CentralOf(df: seq<CentralRow>): (r: seq<CentralRow>)
    ensures forall row :: row in r <==> row in df && row.inCentralGroup
    decreases |df|
  {
    if df == [] then []
    else
      var n := |df| - 1;
      assert df == df[..n] + [df[n]];
      CentralOf(df[..n]) + (if df[n].inCentralGroup then [df[n]] else [])
  }

  /** `unique()[0]` of a frame without central-group rows. */
  const NoFragments := "index 0 is out of bounds for axis 0 with size 0"

  /** The table `new_df` once every fragment is written: the first
      fragment under its own labels, the later ones under the nearest of
      those. */
  function AveragedCells(df: seq<CentralRow>, group: seq<Amount>, sqrt: real -> real): (r: Result<Cells>)
  {
    var central := CentralOf(df);
    var ids := Unique(IdsOf(central));
    if ids == [] then Err(NoFragments)
    else
      match FirstStage(ids[0], RowsWithId(central, ids[0]), group)
      case Err(e) => Err(e)
      case Ok(first) => FilledAll(first.cells, Later(ids), central, first.closest, sqrt)
  }

  /** The table is built whenever the frame has central-group rows whose
      symbols the group lists: the first fragment has a row, so `closest`
      is never empty and no `None` label is written. */
  lemma AveragedCellsOk(df: seq<CentralRow>, group: seq<Amount>, sqrt: real -> real)
    ensures AveragedCells(df, group, sqrt).Err? ==> AveragedCells(df, group, sqrt).error != NoNearest
    ensures CentralOf(df) == [] <==> AveragedCells(df, group, sqrt) == Err(NoFragments)
  {
    var central := CentralOf(df);
    var ids := Unique(IdsOf(central));
    if ids != [] {
      var rows := RowsWithId(central, ids[0]);
      assert ids[0] in IdsOf(central);
      var i :| 0 <= i < |central| && IdsOf(central)[i] == ids[0];
      assert central[i] in rows;
      if Known(rows, group) {
        FirstStageKeys(ids[0], rows, group);
        var first := FirstStage(ids[0], rows, group).value;
        FilledAllOk(first.cells, Later(ids), central, first.closest, sqrt);
      }
    }
  }

  /** `average_fragment` without its cache: number the first fragment, write
      the later fragments under the nearest labels and average every
      label of the group. */
  method AverageFragment(df: seq<CentralRow>, group: seq<Amount>, sqrt: real -> real) returns (r: Result<Fragment>)
    ensures AveragedCells(df, group, sqrt).Err? ==> r.Err? && r.error == AveragedCells(df, group, sqrt).error
    ensures AveragedCells(df, group, sqrt).Ok? ==>
              (r.Ok? <==> AllAtoms(AveragedCells(df, group, sqrt).value, Unique(IdsOf(CentralOf(df))), TemplateLabels(group)))
    ensures AveragedCells(df, group, sqrt).Ok? && r.Err? ==>
              FirstFailure(AveragedCells(df, group, sqrt).value, Unique(IdsOf(CentralOf(df))), TemplateLabels(group), r.error)
    ensures r.Ok? ==> AveragedCells(df, group, sqrt).Ok? && fresh(r.value) &&
                      Averaged(r.value, AveragedCells(df, group, sqrt).value, Unique(IdsOf(CentralOf(df))), TemplateLabels(group))
  {
    var central := CentralOf(df);
    var ids := Unique(IdsOf(central));
    if |ids| == 0 {
      return Err(NoFragments);
    }
    var first := ids[0];
    var rows := RowsWithId(central, first);
    var labelled := LabelFirstFragment(first, rows, group);
    if labelled.Err? {
      return Err(labelled.error);
    }
    var filled := FillCoordinates(central, labelled.value.cells, labelled.value.closest, sqrt);
    if filled.Err? {
      return Err(filled.error);
    }
    r := MakeFragment(TemplateLabels(group), ids, filled.value);
  }
}
