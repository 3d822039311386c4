/**
 * The end of agg_result.py: the collected records become a table sorted by
 * the eleven columns num_species, true_species_tree, n_genes, dup_rate,
 * loss_rate_indicator, hILS, g_type, run_id, method, sampling_method,
 * sampling_mult, compared lexicographically in that order.
 *
 * Numbers compare as numbers and False sorts before True. How the string
 * columns and the mixed "true"/integer g_type column compare is left open:
 * each is given by a rank, a parameter of the model. The sort algorithm is
 * not modelled either: any result that is sorted and a permutation of the
 * collected records is a correct output, and when the ranks tell the grid's
 * values apart there is exactly one such result.
 */
module TableSort {
  import opened Grid
  import opened Collector
  import opened Errors

  /** How the columns whose order is not pinned down compare: a record sorts
      before another when its rank is smaller. */
  datatype ColumnOrder = ColumnOrder(dupRateRank: string -> int, gTypeRank: GeneTrees -> int, textRank: string -> int)

  function BoolRank(b: bool): int
  {
    if b then 1 else 0
  }

  /** The sort key of a record, one entry per column of the `by` list. */
  function SortKey(o: ColumnOrder, r: Record): (key: seq<int>)
    ensures |key| == 11
  {
    [r.numSpecies, BoolRank(r.trueSpeciesTree), r.nGenes, o.dupRateRank(r.dupRate), r.lossRateIndicator,
     BoolRank(r.hILS), o.gTypeRank(r.gType), r.runId, o.textRank(r.methodName), o.textRank(r.samplingMethod),
     r.samplingMult]
  }

  /** Lexicographic order: the first differing entry decides; a prefix sorts first. */
  predicate LexLeq(a: seq<int>, b: seq<int>)
  {
    if a == [] then true
    else if b == [] then false
    else a[0] < b[0] || (a[0] == b[0] && LexLeq(a[1..], b[1..]))
  }

  lemma {:induction false} LexLeqTotal(a: seq<int>, b: seq<int>)
    ensures LexLeq(a, b) || LexLeq(b, a)
  {
    if a != [] && b != [] && a[0] == b[0] {
      LexLeqTotal(a[1..], b[1..]);
    }
  }

  lemma {:induction false} LexLeqTrans(a: seq<int>, b: seq<int>, c: seq<int>)
    requires LexLeq(a, b) && LexLeq(b, c)
    ensures LexLeq(a, c)
  {
    if a != [] && b != [] && c != [] && a[0] == b[0] && b[0] == c[0] {
      LexLeqTrans(a[1..], b[1..], c[1..]);
    }
  }

  lemma {:induction false} LexLeqAntisymmetric(a: seq<int>, b: seq<int>)
    requires |a| == |b| && LexLeq(a, b) && LexLeq(b, a)
    ensures a == b
  {
    if a != [] {
      LexLeqAntisymmetric(a[1..], b[1..]);
      assert a == [a[0]] + a[1..] && b == [b[0]] + b[1..];
    }
  }

  /** xs is ordered by key: every element's key is at most every later one's. */
  predicate SortedOn<T>(key: T -> seq<int>, xs: seq<T>)
  {
    forall i, j :: 0 <= i < j < |xs| ==> LexLeq(key(xs[i]), key(xs[j]))
  }

  /** A sequence stays sorted when an element sorting before all of it goes in front. */
  lemma ConsSorted<T>(key: T -> seq<int>, h: T, t: seq<T>)
    requires SortedOn(key, t)
    requires forall j :: 0 <= j < |t| ==> LexLeq(key(h), key(t[j]))
    ensures SortedOn(key, [h] + t)
  {
    forall i, j | 0 <= i < j < |[h] + t| ensures LexLeq(key(([h] + t)[i]), key(([h] + t)[j])) {
      if i > 0 {
        assert ([h] + t)[i] == t[i - 1] && ([h] + t)[j] == t[j - 1];
      }
    }
  }

  /** When x sorts after the head of a sorted sequence, the head sorts before
      every element of the tail with x inserted. */
  lemma HeadBeforeInserted<T>(key: T -> seq<int>, x: T, xs: seq<T>, tail: seq<T>)
    requires SortedOn(key, xs) && xs != [] && !LexLeq(key(x), key(xs[0]))
    requires multiset(tail) == multiset(xs[1..]) + multiset{x}
    ensures forall j :: 0 <= j < |tail| ==> LexLeq(key(xs[0]), key(tail[j]))
  {
    LexLeqTotal(key(x), key(xs[0]));
    forall j | 0 <= j < |tail| ensures LexLeq(key(xs[0]), key(tail[j])) {
      assert tail[j] in multiset(tail);
      if tail[j] != x {
        assert tail[j] in multiset(xs[1..]);
        var k :| 0 <= k < |xs[1..]| && xs[1..][k] == tail[j];
        assert xs[k + 1] == tail[j];
      }
    }
  }

  /** Inserts x into a sorted sequence, before the first element it does not sort after. */
  function Insert<T>(key: T -> seq<int>, x: T, xs: seq<T>): (out: seq<T>)
    requires SortedOn(key, xs)
    ensures SortedOn(key, out)
    ensures multiset(out) == multiset(xs) + multiset{x}
  {
    if xs == [] then [x]
    else if LexLeq(key(x), key(xs[0])) then
      assert forall j :: 0 <= j < |xs| ==> LexLeq(key(x), key(xs[j])) by {
        forall j | 0 <= j < |xs| ensures LexLeq(key(x), key(xs[j])) {
          if j > 0 { LexLeqTrans(key(x), key(xs[0]), key(xs[j])); }
        }
      }
      ConsSorted(key, x, xs);
      [x] + xs
    else
      assert SortedOn(key, xs[1..]) by {
        forall i, j | 0 <= i < j < |xs[1..]| ensures LexLeq(key(xs[1..][i]), key(xs[1..][j])) {
          assert xs[1..][i] == xs[i + 1] && xs[1..][j] == xs[j + 1];
        }
      }
      var tail := Insert(key, x, xs[1..]);
      HeadBeforeInserted(key, x, xs, tail);
      ConsSorted(key, xs[0], tail);
      assert xs == [xs[0]] + xs[1..];
      [xs[0]] + tail
  }

  /** Insertion sort: sorted by key, and a permutation of its input. */
  function SortOn<T>(key: T -> seq<int>, xs: seq<T>): (out: seq<T>)
    ensures SortedOn(key, out)
    ensures multiset(out) == multiset(xs)
  {
    if xs == [] then []
    else
      assert xs == [xs[0]] + xs[1..];
      Insert(key, xs[0], SortOn(key, xs[1..]))
  }

  lemma SortedTail<T>(key: T -> seq<int>, xs: seq<T>)
    requires SortedOn(key, xs) && xs != []
    ensures SortedOn(key, xs[1..])
  {
    forall i, j | 0 <= i < j < |xs[1..]| ensures LexLeq(key(xs[1..][i]), key(xs[1..][j])) {
      assert xs[1..][i] == xs[i + 1] && xs[1..][j] == xs[j + 1];
    }
  }

  /** Equal multisets with equal first elements have equal tails' multisets. */
  lemma MultisetTail<T>(xs: seq<T>, ys: seq<T>)
    requires xs != [] && ys != [] && xs[0] == ys[0]
    requires multiset(xs) == multiset(ys)
    ensures multiset(xs[1..]) == multiset(ys[1..])
  {
    assert xs == [xs[0]] + xs[1..] && ys == [ys[0]] + ys[1..];
    assert multiset(xs) == multiset{xs[0]} + multiset(xs[1..]);
    assert multiset(ys) == multiset{xs[0]} + multiset(ys[1..]);
    forall z ensures multiset(xs[1..])[z] == multiset(ys[1..])[z] {
      assert multiset(xs)[z] == multiset(ys)[z];
    }
  }

  /** The first element of a sorted sequence sorts before every element. */
  lemma SortedHeadLeast<T>(key: T -> seq<int>, xs: seq<T>, y: T)
    requires SortedOn(key, xs) && y in xs
    ensures LexLeq(key(xs[0]), key(y))
  {
    var i :| 0 <= i < |xs| && xs[i] == y;
    if i == 0 {
      LexLeqTotal(key(y), key(y));
    }
  }

  /** Among keys of one length that tell the elements apart, the sorted order
      is unique. */
  lemma {:induction false} SortedUnique<T>(key: T -> seq<int>, n: nat, xs: seq<T>, ys: seq<T>)
    requires forall x :: |key(x)| == n
    requires SortedOn(key, xs) && SortedOn(key, ys)
    requires multiset(xs) == multiset(ys)
    requires forall x, x' :: x in xs && x' in xs && key(x) == key(x') ==> x == x'
    ensures xs == ys
  {
    if xs != [] {
      assert |ys| == |multiset(ys)| == |multiset(xs)| == |xs|;
      var x, y := xs[0], ys[0];
      assert y in xs by { assert y in multiset(xs); }
      assert x in ys by { assert x in multiset(ys); }
      SortedHeadLeast(key, xs, y);
      SortedHeadLeast(key, ys, x);
      LexLeqAntisymmetric(key(x), key(y));
      assert x == y;
      assert xs == [x] + xs[1..] && ys == [x] + ys[1..];
      MultisetTail(xs, ys);
      assert forall r :: r in xs[1..] ==> r in xs;
      SortedTail(key, xs);
      SortedTail(key, ys);
      SortedUnique(key, n, xs[1..], ys[1..]);
    }
  }

  /** The table order: lexicographic on the sort key. */
  predicate SortedBy(o: ColumnOrder, rs: seq<Record>)
  {
    SortedOn(r => SortKey(o, r), rs)
  }

  /** The collected records sorted by the key. */
  function SortByKey(o: ColumnOrder, rs: seq<Record>): (out: seq<Record>)
    ensures SortedBy(o, out)
    ensures multiset(out) == multiset(rs)
  {
    SortOn(r => SortKey(o, r), rs)
  }

  /** Lines 212-229 of the script: collect, then sort by the key. The result is
      the sorted table, or the KeyError pandas raises when it is asked to sort
      by a column the table lacks. A DataFrame
      built from no records has no columns at all, so sorting it by
      num_species fails and no table is written. */
  method Aggregate(fs: FileSystem, root: Path, o: ColumnOrder) returns (r: Result<seq<Record>>)
    ensures r.KeyError? <==> Collected(fs, root) == []
    ensures r.KeyError? ==> r.key == "num_species"
    ensures r.Ok? ==> SortedBy(o, r.value) && multiset(r.value) == multiset(Collected(fs, root))
  {
    var results := Collect(fs, root);
    if |results| == 0 {
      return KeyError("num_species");
    }
    r := Ok(SortByKey(o, results));
  }

  /** The script fails exactly when no grid run holds a score file. */
  lemma NothingCollected(fs: FileSystem, root: Path)
    ensures Collected(fs, root) == [] <==> forall r :: !Collectable(fs, root, r)
  {
    CollectedMembers(fs, root);
    if Collected(fs, root) != [] {
      assert Collected(fs, root)[0] in Collected(fs, root);
    }
  }

  /** The rows of any sorted permutation of the collected records are exactly
      the collectable records, each once. */
  lemma AggregateRows(fs: FileSystem, root: Path, o: ColumnOrder, table: seq<Record>)
    requires multiset(table) == multiset(Collected(fs, root))
    ensures |table| <= 184320
    ensures forall r :: r in table <==> Collectable(fs, root, r)
  {
    CollectedMembers(fs, root);
    assert |table| == |multiset(table)| == |multiset(Collected(fs, root))| == |Collected(fs, root)|;
    forall r ensures r in table <==> r in Collected(fs, root) {
      assert r in table <==> r in multiset(table);
      assert r in Collected(fs, root) <==> r in multiset(Collected(fs, root));
    }
  }

  /** The ranks tell apart the values the grid and the labels take. */
  predicate SeparatesGrid(o: ColumnOrder)
  {
    && (forall d, d' :: d in DUP_RATES && d' in DUP_RATES && o.dupRateRank(d) == o.dupRateRank(d') ==> d == d')
    && (forall t, t' :: t in GENE_TREE_TYPES && t' in GENE_TREE_TYPES && o.gTypeRank(t) == o.gTypeRank(t') ==> t == t')
    && o.textRank(QR_LABEL) != o.textRank(QRSTAR_LABEL)
  }

  /** Collected records with the same key are the same record: the key names
      the record's file. */
  lemma CollectedKeysDistinct(fs: FileSystem, root: Path, o: ColumnOrder, r: Record, r': Record)
    requires SeparatesGrid(o)
    requires r in Collected(fs, root) && r' in Collected(fs, root)
    requires SortKey(o, r) == SortKey(o, r')
    ensures r == r'
  {
    CollectedMembers(fs, root);
    assert Collectable(fs, root, r) && Collectable(fs, root, r');
    var key, key' := SortKey(o, r), SortKey(o, r');
    assert key[0] == key'[0] && key[1] == key'[1] && key[2] == key'[2] && key[3] == key'[3];
    assert key[4] == key'[4] && key[5] == key'[5] && key[6] == key'[6] && key[7] == key'[7];
    assert key[8] == key'[8] && key[10] == key'[10];
    assert r.methodName == r'.methodName;
    assert RecordPath(root, r) == RecordPath(root, r');
    OneRecordPerFile(fs, root, r, r');
  }

  /** Whatever the sort algorithm, the table is determined: two sorted
      permutations of the collected records are equal. */
  lemma AggregateDeterministic(fs: FileSystem, root: Path, o: ColumnOrder, t: seq<Record>, t': seq<Record>)
    requires SeparatesGrid(o)
    requires SortedBy(o, t) && multiset(t) == multiset(Collected(fs, root))
    requires SortedBy(o, t') && multiset(t') == multiset(Collected(fs, root))
    ensures t == t'
  {
    var key := r => SortKey(o, r);
    forall r, r' | r in t && r' in t && key(r) == key(r') ensures r == r' {
      assert r in multiset(t) && r' in multiset(t);
      CollectedKeysDistinct(fs, root, o, r, r');
    }
    SortedUnique(r => SortKey(o, r), 11, t, t');
  }
}
