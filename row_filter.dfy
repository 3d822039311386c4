/**
 * The row filter and the relabelling maps of plot_result_1x2.py.
 *
 * A table is a set of column names and a sequence of rows; a row maps every
 * column to a cell that holds a value or is missing (NA). `plot_comparison`
 * copies the table and narrows the copy once per filter entry, in the order
 * of the filter dictionary; then it adds an `ILS Level` column derived from
 * `hILS`. Before any plotting the script relabels the species counts and the
 * unrooted-tree methods. A column that does not exist raises a KeyError.
 */
module RowFilter {
  import opened Seqs
  import opened Grid
  import opened Errors

  datatype Scalar = Bool(b: bool) | Int(i: int) | Float(x: real) | Str(s: string)

  datatype Cell = NA | Val(v: Scalar)

  type Row = map<string, Cell>

  datatype Table = Table(columns: set<string>, rows: seq<Row>)

  /** Every row has exactly the table's columns. */
  predicate WellFormed(t: Table)
  {
    forall row :: row in t.rows ==> row.Keys == t.columns
  }

  datatype Option<T> = None | Some(value: T)

  /** A filter value: a scalar, compared with `==`; `None`, meaning "is NA";
      or a list, whose `None` entries stand for NA. */
  datatype FilterValue = Is(v: Scalar) | IsNone | OneOf(items: seq<Option<Scalar>>)

  /** One entry of the filter dictionary: a column name and a filter value. */
  type FilterEntry = (string, FilterValue)

  /** The filter dictionary is its entries in insertion order; a Python
      dictionary holds each key once. */
  predicate DistinctKeys(filters: seq<FilterEntry>)
  {
    forall i, j :: 0 <= i < j < |filters| ==> filters[i].0 != filters[j].0
  }

  function CellAt(row: Row, key: string): Cell
  {
    if key in row then row[key] else NA
  }

  // ---------------------------------------------------------------------------
  // Which rows pass a filter.

  /** The non-None entries of a filter list: a value is among them exactly
      when the list holds it. */
  function NonNone(items: seq<Option<Scalar>>): (vs: seq<Scalar>)
    ensures forall v :: v in vs <==> Some(v) in items
  {
    if items == [] then []
    else
      var init, last := items[..|items| - 1], items[|items| - 1];
      assert items == init + [last];
      NonNone(init) + (if last.Some? then [last.value] else [])
  }

  /** Whether a cell passes a filter value: equal to the scalar (an NA cell
      never is), NA, or one of the list's values or, when the list holds None,
      NA. */
  predicate Passes(c: Cell, value: FilterValue)
  {
    match value
    case OneOf(items) => (c.Val? && c.v in NonNone(items)) || (None in items && c.NA?)
    case IsNone => c.NA?
    case Is(v) => c == Val(v)
  }

  predicate Matches(row: Row, entry: FilterEntry)
  {
    Passes(CellAt(row, entry.0), entry.1)
  }

  /** A row survives a filter dictionary when it passes every entry. */
  predicate KeepsRow(row: Row, filters: seq<FilterEntry>)
  {
    forall e :: e in filters ==> Matches(row, e)
  }

  predicate KeysPresent(t: Table, filters: seq<FilterEntry>)
  {
    forall e :: e in filters ==> e.0 in t.columns
  }

  /** The table the filter produces when every key is a column. */
  function Filtered(df: Table, filters: seq<FilterEntry>): Table
  {
    Table(df.columns, Filter(df.rows, row => KeepsRow(row, filters)))
  }

  // ---------------------------------------------------------------------------
  // The pandas expressions the filter is built from.

  /** `df[key]` */
  function Column(t: Table, key: string): seq<Cell>
  {
    seq(|t.rows|, i requires 0 <= i < |t.rows| => CellAt(t.rows[i], key))
  }

  /** `col == v` */
  function EqMask(col: seq<Cell>, v: Scalar): seq<bool>
  {
    seq(|col|, i requires 0 <= i < |col| => col[i] == Val(v))
  }

  /** `col.isna()` */
  function NaMask(col: seq<Cell>): seq<bool>
  {
    seq(|col|, i requires 0 <= i < |col| => col[i].NA?)
  }

  /** `col.isin(vs)` */
  function IsInMask(col: seq<Cell>, vs: seq<Scalar>): seq<bool>
  {
    seq(|col|, i requires 0 <= i < |col| => col[i].Val? && col[i].v in vs)
  }

  /** `mask | other` */
  function OrMask(mask: seq<bool>, other: seq<bool>): seq<bool>
    requires |mask| == |other|
  {
    seq(|mask|, i requires 0 <= i < |mask| => mask[i] || other[i])
  }

  /** Selecting with a mask that holds entry i's verdict on each row narrows
      the table filtered by the first i entries to the one filtered by i + 1. */
  lemma NextFilter(df: Table, filters: seq<FilterEntry>, i: nat, mask: seq<bool>)
    requires i < |filters|
    requires |mask| == |Filtered(df, filters[..i]).rows|
    requires forall j :: 0 <= j < |mask| ==> mask[j] == Matches(Filtered(df, filters[..i]).rows[j], filters[i])
    ensures Table(df.columns, Select(Filtered(df, filters[..i]).rows, mask)) == Filtered(df, filters[..i + 1])
  {
    var before, entry := filters[..i], filters[i];
    var rows := Filtered(df, before).rows;
    SelectFilter(rows, mask, row => Matches(row, entry));
    var p, q, both := row => KeepsRow(row, before), row => Matches(row, entry), row => KeepsRow(row, filters[..i + 1]);
    assert filters[..i + 1] == before + [entry];
    forall row | row in df.rows ensures both(row) == (p(row) && q(row)) {
      if p(row) && q(row) {
        forall e | e in filters[..i + 1] ensures Matches(row, e) {
          if e != entry {
            assert e in before;
          }
        }
      }
      if KeepsRow(row, filters[..i + 1]) {
        forall e | e in before ensures Matches(row, e) {
          assert e in filters[..i + 1];
        }
        assert entry in filters[..i + 1];
      }
    }
    FilterConj(df.rows, p, q, both);
  }

  /** Lines 22-32 of plot_result_1x2.py: the mask of one filter entry over a
      table that has its column; entry j is the entry's verdict on row j. */
  method EntryMask(t: Table, key: string, value: FilterValue) returns (mask: seq<bool>)
    ensures |mask| == |t.rows|
    ensures forall j :: 0 <= j < |mask| ==> mask[j] == Matches(t.rows[j], (key, value))
  {
    var col := Column(t, key);
    match value {
      case OneOf(items) =>
        mask := IsInMask(col, NonNone(items));
        if None in items {
          mask := OrMask(mask, NaMask(col));
        }
      case IsNone =>
        mask := NaMask(col);
      case Is(v) =>
        mask := EqMask(col, v);
    }
  }

  /** No entry yet: the copy is the table itself. */
  lemma NoFilter(df: Table, filters: seq<FilterEntry>)
    ensures Filtered(df, filters[..0]) == df
  {
    FilterAll(df.rows, row => KeepsRow(row, filters[..0]));
  }

  /** Entry i names the first key that is not a column. */
  lemma FirstMissingKey(df: Table, filters: seq<FilterEntry>, i: nat)
    requires i < |filters| && filters[i].0 !in df.columns
    requires forall j :: 0 <= j < i ==> filters[j].0 in df.columns
    ensures !KeysPresent(df, filters)
    ensures exists j :: (0 <= j < |filters| && filters[j].0 == filters[i].0 && filters[i].0 !in df.columns
      && forall k :: 0 <= k < j ==> filters[k].0 in df.columns)
  {
    assert filters[i] in filters;
  }

  lemma AllKeysPresent(df: Table, filters: seq<FilterEntry>)
    requires forall j :: 0 <= j < |filters| ==> filters[j].0 in df.columns
    ensures KeysPresent(df, filters)
  {
    forall e | e in filters ensures e.0 in df.columns {
      var j :| 0 <= j < |filters| && filters[j] == e;
    }
  }

  /** Lines 20-32 of plot_result_1x2.py: copy the table, then narrow it once
      per filter entry. The result is the first missing column's KeyError, or
      the rows that pass every entry. */
  method FilterRows(df: Table, filters: seq<FilterEntry>) returns (r: Result<Table>)
    requires DistinctKeys(filters)
    ensures r.Ok? <==> KeysPresent(df, filters)
    ensures r.Ok? ==> r.value == Filtered(df, filters)
    ensures r.KeyError? ==> exists j :: (0 <= j < |filters| && filters[j].0 == r.key && r.key !in df.columns
      && forall i :: 0 <= i < j ==> filters[i].0 in df.columns)
  {
    var dfFiltered := df;
    NoFilter(df, filters);
    for i := 0 to |filters|
      invariant dfFiltered == Filtered(df, filters[..i])
      invariant forall j :: 0 <= j < i ==> filters[j].0 in df.columns
    {
      var (key, value) := filters[i];
      if key !in dfFiltered.columns {
        FirstMissingKey(df, filters, i);
        return KeyError(key);
      }
      var mask := EntryMask(dfFiltered, key, value);
      NextFilter(df, filters, i, mask);
      dfFiltered := Table(df.columns, Select(dfFiltered.rows, mask));
    }
    assert filters[..|filters|] == filters;
    AllKeysPresent(df, filters);
    r := Ok(dfFiltered);
  }

  // ---------------------------------------------------------------------------
  // What the filter means.

  /** The filtered rows are the input rows that pass every entry, kept in
      their order: a subsequence of the input at exactly the positions of the
      rows that pass. */
  lemma FilteredRows(df: Table, filters: seq<FilterEntry>)
    ensures Filtered(df, filters).columns == df.columns
    ensures forall row :: row in Filtered(df, filters).rows <==> row in df.rows && KeepsRow(row, filters)
    ensures exists idx :: (SubsequenceAt(Filtered(df, filters).rows, df.rows, idx)
      && forall i :: 0 <= i < |df.rows| ==> (i in idx <==> KeepsRow(df.rows[i], filters)))
  {
    var p := row => KeepsRow(row, filters);
    forall row ensures row in Filter(df.rows, p) <==> row in df.rows && KeepsRow(row, filters) {
      FilterMember(df.rows, p, row);
    }
    FilterSubsequence(df.rows, p);
  }

  /** Filtering keeps a table well formed. */
  lemma FilteredWellFormed(df: Table, filters: seq<FilterEntry>)
    requires WellFormed(df)
    ensures WellFormed(Filtered(df, filters))
  {
    FilteredRows(df, filters);
  }

  /** The entries combine by conjunction, so their order does not matter: two
      filter dictionaries with the same entries select the same rows. */
  lemma FilterOrderIrrelevant(df: Table, filters: seq<FilterEntry>, filters': seq<FilterEntry>)
    requires forall e :: e in filters <==> e in filters'
    ensures KeysPresent(df, filters) <==> KeysPresent(df, filters')
    ensures Filtered(df, filters) == Filtered(df, filters')
  {
    FilterCongruent(df.rows, row => KeepsRow(row, filters), row => KeepsRow(row, filters'));
  }

  /** Filtering twice is filtering once by both dictionaries. */
  lemma FilterTwice(df: Table, filters: seq<FilterEntry>, more: seq<FilterEntry>)
    ensures Filtered(Filtered(df, filters), more) == Filtered(df, filters + more)
  {
    var p, q, both := row => KeepsRow(row, filters), row => KeepsRow(row, more), row => KeepsRow(row, filters + more);
    forall row | row in df.rows ensures both(row) == (p(row) && q(row)) {
      if p(row) && q(row) {
        forall e | e in filters + more ensures Matches(row, e) {
          if e !in filters {
            assert e in more;
          }
        }
      }
    }
    FilterConj(df.rows, p, q, both);
  }

  // ---------------------------------------------------------------------------
  // Relabelling a column through a dictionary.

  /** `Series.map(d)` on one cell: a value among d's keys becomes its image;
      any other value, and NA, becomes NA. */
  function Lookup(d: map<Scalar, Scalar>, c: Cell): Cell
  {
    if c.Val? && c.v in d then Val(d[c.v]) else NA
  }

  /** `t[target] = t[source].map(d)` */
  function MapColumn(t: Table, source: string, target: string, d: map<Scalar, Scalar>): (r: Result<Table>)
    ensures r.Ok? <==> source in t.columns
    ensures r.KeyError? ==> r.key == source
    ensures r.Ok? ==> r.value.columns == t.columns + {target} && |r.value.rows| == |t.rows|
  {
    if source !in t.columns then KeyError(source)
    else Ok(Table(t.columns + {target}, Map(t.rows, (row: Row) => row[target := Lookup(d, CellAt(row, source))])))
  }

  /** Mapping a column adds or overwrites the target column row by row with
      the image of the source cell, and leaves every other column as it was. */
  lemma MapColumnRows(t: Table, source: string, target: string, d: map<Scalar, Scalar>)
    requires WellFormed(t)
    ensures MapColumn(t, source, target, d).Ok? <==> source in t.columns
    ensures MapColumn(t, source, target, d).Ok? ==>
      var t' := MapColumn(t, source, target, d).value;
      && WellFormed(t')
      && t'.columns == t.columns + {target}
      && |t'.rows| == |t.rows|
      && forall i :: 0 <= i < |t.rows| ==>
        && t'.rows[i][target] == Lookup(d, t.rows[i][source])
        && forall c :: c in t.columns && c != target ==> t'.rows[i][c] == t.rows[i][c]
  {
    if source in t.columns {
      var g := (row: Row) => row[target := Lookup(d, CellAt(row, source))];
      MapIndex(t.rows, g);
      var rows' := Map(t.rows, g);
      forall row' | row' in rows' ensures row'.Keys == t.columns + {target} {
        var i :| 0 <= i < |rows'| && rows'[i] == row';
        assert t.rows[i] in t.rows;
      }
    }
  }

  /** Lines 34-36: the ILS label of each hILS value. */
  const ILS_LABELS: map<Scalar, Scalar> := map[Bool(false) := Str("Low ILS"), Bool(true) := Str("High ILS")]

  function AddIlsLevel(t: Table): (r: Result<Table>)
    ensures r.Ok? <==> "hILS" in t.columns
  {
    MapColumn(t, "hILS", "ILS Level", ILS_LABELS)
  }

  /** A row is on the "High ILS" panel exactly when its hILS is true and on the
      "Low ILS" panel exactly when it is false; no row is on both. */
  lemma IlsLevelRows(t: Table)
    requires WellFormed(t) && "hILS" in t.columns
    ensures AddIlsLevel(t).Ok?
    ensures forall i :: 0 <= i < |t.rows| ==> IlsLabelled(t.rows[i]["hILS"], CellAt(AddIlsLevel(t).value.rows[i], "ILS Level"))
  {
    MapColumnRows(t, "hILS", "ILS Level", ILS_LABELS);
    var t' := AddIlsLevel(t).value;
    forall i | 0 <= i < |t.rows|
      ensures IlsLabelled(t.rows[i]["hILS"], CellAt(t'.rows[i], "ILS Level"))
    {
      IlsLabel(t.rows[i]["hILS"]);
    }
  }

  /** level is the ILS label of the hILS cell c. */
  predicate IlsLabelled(c: Cell, level: Cell)
  {
    && (level == Val(Str("High ILS")) <==> c == Val(Bool(true)))
    && (level == Val(Str("Low ILS")) <==> c == Val(Bool(false)))
  }

  /** True is labelled "High ILS", False "Low ILS", anything else NA. */
  lemma IlsLabel(c: Cell)
    ensures IlsLabelled(c, Lookup(ILS_LABELS, c))
    ensures Lookup(ILS_LABELS, c) != NA <==> c.Val? && c.v.Bool?
  {
    assert ILS_LABELS.Keys == {Bool(false), Bool(true)};
    assert Str("High ILS") != Str("Low ILS") by {
      assert "High ILS"[0] != "Low ILS"[0];
    }
  }

  /** Line 89: each species count is shown with the outgroup added. */
  const SPECIES_LABELS: map<Scalar, Scalar> := map[Int(20) := Int(21), Int(50) := Int(51), Int(100) := Int(101)]

  /** Line 86-88: the display name of each unrooted-tree method. */
  const TREE_LABELS: map<Scalar, Scalar> :=
    map[Str("trues") := Str("True"), Str("astrid") := Str("ASTRID"), Str("astral") := Str("ASTRAL")]

  function RelabelSpecies(t: Table): (r: Result<Table>)
    ensures r.Ok? <==> "num_species" in t.columns
  {
    MapColumn(t, "num_species", "num_species", SPECIES_LABELS)
  }

  function RelabelTrees(t: Table): (r: Result<Table>)
    ensures r.Ok? <==> "unrooted_s_tree" in t.columns
  {
    MapColumn(t, "unrooted_s_tree", "unrooted_s_tree", TREE_LABELS)
  }

  /** A grid species count n is relabelled n + 1; every other cell, including
      any count outside the grid, becomes NA. */
  lemma SpeciesLabels(c: Cell)
    ensures forall n :: n in SPECIES_COUNTS ==> Lookup(SPECIES_LABELS, Val(Int(n))) == Val(Int(n + 1))
    ensures Lookup(SPECIES_LABELS, c) != NA <==> c.Val? && c.v.Int? && c.v.i in SPECIES_COUNTS
  {
    assert SPECIES_LABELS.Keys == {Int(20), Int(50), Int(100)};
  }

  /** Each unrooted-tree method of the collector gets a label of its own,
      and no other cell gets a label. */
  lemma TreeLabels(u: UnrootedTree, u': UnrootedTree, c: Cell)
    ensures Lookup(TREE_LABELS, Val(Str(UnrootedName(u)))) != NA
    ensures Lookup(TREE_LABELS, Val(Str(UnrootedName(u)))) == Lookup(TREE_LABELS, Val(Str(UnrootedName(u')))) ==> u == u'
    ensures Lookup(TREE_LABELS, c) != NA <==> exists w :: c == Val(Str(UnrootedName(w)))
  {
    assert TREE_LABELS.Keys == {Str("trues"), Str("astrid"), Str("astral")};
    assert "True"[0] != "ASTRID"[0] && "ASTRID"[4] != "ASTRAL"[4];
    if Lookup(TREE_LABELS, c) != NA {
      var w := if c.v == Str("trues") then Trues else if c.v == Str("astrid") then Astrid else Astral;
      assert c == Val(Str(UnrootedName(w)));
    }
  }

  /** c' is the relabelled species count c: a grid count n becomes n + 1 and
      anything else becomes NA. */
  predicate SpeciesRelabelled(c: Cell, c': Cell)
  {
    && (forall n :: n in SPECIES_COUNTS && c == Val(Int(n)) ==> c' == Val(Int(n + 1)))
    && (c' != NA <==> c.Val? && c.v.Int? && c.v.i in SPECIES_COUNTS)
  }

  /** Line 89 on a whole table: every row's species count is relabelled and
      no other column changes. */
  lemma RelabelSpeciesRows(t: Table)
    requires WellFormed(t) && "num_species" in t.columns
    ensures RelabelSpecies(t).Ok?
    ensures var t' := RelabelSpecies(t).value;
      && t'.columns == t.columns && |t'.rows| == |t.rows|
      && forall i :: 0 <= i < |t.rows| ==>
        && SpeciesRelabelled(CellAt(t.rows[i], "num_species"), CellAt(t'.rows[i], "num_species"))
        && forall c :: c in t.columns && c != "num_species" ==> CellAt(t'.rows[i], c) == CellAt(t.rows[i], c)
  {
    MapColumnRows(t, "num_species", "num_species", SPECIES_LABELS);
    var t' := RelabelSpecies(t).value;
    forall i | 0 <= i < |t.rows|
      ensures SpeciesRelabelled(CellAt(t.rows[i], "num_species"), CellAt(t'.rows[i], "num_species"))
    {
      SpeciesLabels(t.rows[i]["num_species"]);
    }
  }

  /** c' is the display name of the unrooted-tree method c: trues becomes
      "True", astrid "ASTRID", astral "ASTRAL", and anything else NA. */
  predicate TreeRelabelled(c: Cell, c': Cell)
  {
    && (c == Val(Str("trues")) ==> c' == Val(Str("True")))
    && (c == Val(Str("astrid")) ==> c' == Val(Str("ASTRID")))
    && (c == Val(Str("astral")) ==> c' == Val(Str("ASTRAL")))
    && (c' != NA <==> exists u :: c == Val(Str(UnrootedName(u))))
  }

  /** Lines 86-88 on a whole table: every row's unrooted-tree method is
      relabelled and no other column changes. */
  lemma RelabelTreesRows(t: Table)
    requires WellFormed(t) && "unrooted_s_tree" in t.columns
    ensures RelabelTrees(t).Ok?
    ensures var t' := RelabelTrees(t).value;
      && t'.columns == t.columns && |t'.rows| == |t.rows|
      && forall i :: 0 <= i < |t.rows| ==>
        && TreeRelabelled(CellAt(t.rows[i], "unrooted_s_tree"), CellAt(t'.rows[i], "unrooted_s_tree"))
        && forall c :: c in t.columns && c != "unrooted_s_tree" ==> CellAt(t'.rows[i], c) == CellAt(t.rows[i], c)
  {
    MapColumnRows(t, "unrooted_s_tree", "unrooted_s_tree", TREE_LABELS);
    var t' := RelabelTrees(t).value;
    forall i | 0 <= i < |t.rows|
      ensures TreeRelabelled(CellAt(t.rows[i], "unrooted_s_tree"), CellAt(t'.rows[i], "unrooted_s_tree"))
    {
      TreeCellLabel(t.rows[i]["unrooted_s_tree"]);
    }
  }

  /** Each cell of the unrooted-tree column gets its display name or NA. */
  lemma TreeCellLabel(c: Cell)
    ensures TreeRelabelled(c, Lookup(TREE_LABELS, c))
  {
    TreeLabels(Trues, Trues, c);
  }
}
