/**
 * Sequence helpers shared by the models of the result collector and the
 * missing-file auditor: the concatenation of the blocks a nested loop appends,
 * and the absence of duplicates.
 */
module Seqs {

  /** The concatenation f(xs[0]) + f(xs[1]) + ... + f(xs[|xs|-1]): what a loop
      over xs appends when each iteration appends f(x). Defined from the end,
      so that one more iteration is one more block on the right. */
  function FlatMap<T, U>(xs: seq<T>, f: T -> seq<U>): seq<U>
  {
    if xs == [] then [] else FlatMap(xs[..|xs| - 1], f) + f(xs[|xs| - 1])
  }

  /** An element is in the concatenation iff it is in the block of some loop value. */
  lemma {:induction false} FlatMapMember<T, U>(xs: seq<T>, f: T -> seq<U>, u: U)
    ensures u in FlatMap(xs, f) <==> exists x :: x in xs && u in f(x)
  {
    if xs != [] {
      var init, last := xs[..|xs| - 1], xs[|xs| - 1];
      FlatMapMember(init, f, u);
      if u in FlatMap(init, f) {
        var x :| x in init && u in f(x);
        assert x in xs;
      }
      if exists x :: x in xs && u in f(x) {
        var x :| x in xs && u in f(x);
        if x != last {
          var i :| 0 <= i < |xs| && xs[i] == x;
          assert init[i] == x;
        }
      }
    }
  }

  lemma AppendAssoc<U>(a: seq<U>, b: seq<U>, c: seq<U>)
    ensures (a + b) + c == a + (b + c)
  {
  }

  /** One more loop iteration appends one more block. */
  lemma FlatMapSnoc<T, U>(xs: seq<T>, i: nat, f: T -> seq<U>)
    requires i < |xs|
    ensures FlatMap(xs[..i + 1], f) == FlatMap(xs[..i], f) + f(xs[i])
  {
    assert xs[..i + 1][..i] == xs[..i];
  }

  /** Four loop values append their four blocks, one after the other. */
  lemma FlatMapFour<T, U>(xs: seq<T>, f: T -> seq<U>)
    requires |xs| == 4
    ensures FlatMap(xs, f) == f(xs[0]) + f(xs[1]) + f(xs[2]) + f(xs[3])
  {
    assert xs[..1][..0] == [];
    FlatMapSnoc(xs, 0, f);
    FlatMapSnoc(xs, 1, f);
    FlatMapSnoc(xs, 2, f);
    FlatMapSnoc(xs, 3, f);
    assert xs[..4] == xs;
  }

  /** When every block has at most k elements, the concatenation has at most |xs| * k. */
  lemma {:induction false} FlatMapLength<T, U>(xs: seq<T>, f: T -> seq<U>, k: nat)
    requires forall x :: x in xs ==> |f(x)| <= k
    ensures |FlatMap(xs, f)| <= |xs| * k
  {
    if xs != [] {
      var init := xs[..|xs| - 1];
      assert forall x :: x in init ==> x in xs;
      FlatMapLength(init, f, k);
      assert |FlatMap(xs, f)| == |FlatMap(init, f)| + |f(xs[|xs| - 1])|;
      assert |xs| * k == |init| * k + k;
    }
  }

  /** No element occurs twice. */
  predicate NoDup<T(==)>(s: seq<T>)
  {
    forall i, j :: 0 <= i < j < |s| ==> s[i] != s[j]
  }

  lemma NoDupAppend<T>(a: seq<T>, b: seq<T>)
    requires NoDup(a) && NoDup(b)
    requires forall u :: u in a ==> u !in b
    ensures NoDup(a + b)
  {
    var s := a + b;
    forall i, j | 0 <= i < j < |s| ensures s[i] != s[j] {
      if i < |a| && j >= |a| {
        assert s[i] in a && s[j] == b[j - |a|];
      } else if i >= |a| {
        assert s[i] == b[i - |a|] && s[j] == b[j - |a|];
      }
    }
  }

  /** Blocks without duplicates whose elements are tagged with their own loop
      value (key(u) == x for u in f(x)) concatenate, over distinct loop values,
      into a sequence without duplicates. */
  lemma {:induction false} FlatMapNoDup<T, U>(xs: seq<T>, f: T -> seq<U>, key: U -> T)
    requires NoDup(xs)
    requires forall x :: x in xs ==> NoDup(f(x))
    requires forall x, u :: x in xs && u in f(x) ==> key(u) == x
    ensures NoDup(FlatMap(xs, f))
  {
    if xs != [] {
      var init, last := xs[..|xs| - 1], xs[|xs| - 1];
      assert forall x :: x in init ==> x in xs;
      FlatMapNoDup(init, f, key);
      forall u | u in FlatMap(init, f) ensures u !in f(last) {
        FlatMapMember(init, f, u);
        var x :| x in init && u in f(x);
        var i :| 0 <= i < |init| && init[i] == x;
        assert xs[i] == x && i < |xs| - 1;
        assert key(u) == x && x != last;
      }
      NoDupAppend(FlatMap(init, f), f(last));
    }
  }

  /** The elements of xs that satisfy p, in order. */
  function Filter<T>(xs: seq<T>, p: T -> bool): (ys: seq<T>)
    ensures |ys| <= |xs|
  {
    if xs == [] then []
    else Filter(xs[..|xs| - 1], p) + (if p(xs[|xs| - 1]) then [xs[|xs| - 1]] else [])
  }

  /** When each block has one element if x satisfies p and none otherwise, the
      concatenation has one element per element of xs satisfying p. */
  lemma {:induction false} FlatMapCount<T, U>(xs: seq<T>, f: T -> seq<U>, p: T -> bool)
    requires forall x :: x in xs ==> |f(x)| == if p(x) then 1 else 0
    ensures |FlatMap(xs, f)| == |Filter(xs, p)|
  {
    if xs != [] {
      var init := xs[..|xs| - 1];
      assert forall x :: x in init ==> x in xs;
      FlatMapCount(init, f, p);
    }
  }

  /** g applied to every element, in order. */
  function Map<T, U>(xs: seq<T>, g: T -> U): (ys: seq<U>)
    ensures |ys| == |xs|
  {
    if xs == [] then [] else Map(xs[..|xs| - 1], g) + [g(xs[|xs| - 1])]
  }

  lemma {:induction false} MapAppend<T, U>(xs: seq<T>, ys: seq<T>, g: T -> U)
    ensures Map(xs + ys, g) == Map(xs, g) + Map(ys, g)
  {
    if ys == [] {
      assert xs + ys == xs;
    } else {
      var init := ys[..|ys| - 1];
      assert (xs + ys)[..|xs + ys| - 1] == xs + init;
      MapAppend(xs, init, g);
      assert Map(ys, g) == Map(init, g) + [g(ys[|ys| - 1])];
    }
  }

  lemma {:induction false} MapMember<T, U>(xs: seq<T>, g: T -> U, u: U)
    ensures u in Map(xs, g) <==> exists x :: x in xs && u == g(x)
  {
    if xs != [] {
      var init, last := xs[..|xs| - 1], xs[|xs| - 1];
      MapMember(init, g, u);
      if u in Map(init, g) {
        var x :| x in init && u == g(x);
        assert x in xs;
      }
      if exists x :: x in xs && u == g(x) {
        var x :| x in xs && u == g(x);
        if x != last {
          var i :| 0 <= i < |xs| && xs[i] == x;
          assert init[i] == x;
        }
      }
    }
  }

  /** g maps distinct elements of a sequence without duplicates to distinct values. */
  lemma {:induction false} MapNoDup<T, U>(xs: seq<T>, g: T -> U)
    requires NoDup(xs)
    requires forall x, x' :: x in xs && x' in xs && g(x) == g(x') ==> x == x'
    ensures NoDup(Map(xs, g))
  {
    if xs != [] {
      var init, last := xs[..|xs| - 1], xs[|xs| - 1];
      assert forall x :: x in init ==> x in xs;
      assert NoDup(init);
      MapNoDup(init, g);
      forall u | u in Map(init, g) ensures u !in [g(last)] {
        MapMember(init, g, u);
        var x :| x in init && u == g(x);
        var i :| 0 <= i < |init| && init[i] == x;
        assert xs[i] == x && i < |xs| - 1;
      }
      NoDupAppend(Map(init, g), [g(last)]);
    }
  }

  lemma {:induction false} FilterMember<T>(xs: seq<T>, p: T -> bool, x: T)
    ensures x in Filter(xs, p) <==> x in xs && p(x)
  {
    if xs != [] {
      var init, last := xs[..|xs| - 1], xs[|xs| - 1];
      FilterMember(init, p, x);
      assert xs == init + [last];
    }
  }

  lemma {:induction false} FilterAppend<T>(xs: seq<T>, ys: seq<T>, p: T -> bool)
    ensures Filter(xs + ys, p) == Filter(xs, p) + Filter(ys, p)
  {
    if ys == [] {
      assert xs + ys == xs;
    } else {
      var init, last := ys[..|ys| - 1], ys[|ys| - 1];
      assert (xs + ys)[..|xs + ys| - 1] == xs + init;
      FilterAppend(xs, init, p);
    }
  }

  /** Filtering by p and then by q keeps what satisfies both. */
  lemma {:induction false} FilterConj<T>(xs: seq<T>, p: T -> bool, q: T -> bool, both: T -> bool)
    requires forall x :: x in xs ==> both(x) == (p(x) && q(x))
    ensures Filter(Filter(xs, p), q) == Filter(xs, both)
  {
    if xs != [] {
      var init, last := xs[..|xs| - 1], xs[|xs| - 1];
      assert forall x :: x in init ==> x in xs;
      FilterConj(init, p, q, both);
      var tail := if p(last) then [last] else [];
      FilterAppend(Filter(init, p), tail, q);
      if p(last) {
        assert tail[..0] == [];
      }
    }
  }

  /** A predicate every element satisfies keeps them all. */
  lemma {:induction false} FilterAll<T>(xs: seq<T>, p: T -> bool)
    requires forall x :: x in xs ==> p(x)
    ensures Filter(xs, p) == xs
  {
    if xs != [] {
      var init := xs[..|xs| - 1];
      assert forall x :: x in init ==> x in xs;
      FilterAll(init, p);
    }
  }

  /** Predicates that agree on the elements select the same elements. */
  lemma {:induction false} FilterCongruent<T>(xs: seq<T>, p: T -> bool, q: T -> bool)
    requires forall x :: x in xs ==> p(x) == q(x)
    ensures Filter(xs, p) == Filter(xs, q)
  {
    if xs != [] {
      var init := xs[..|xs| - 1];
      assert forall x :: x in init ==> x in xs;
      FilterCongruent(init, p, q);
    }
  }

  /** Boolean indexing: the elements whose mask entry is true, in order. */
  function Select<T>(xs: seq<T>, mask: seq<bool>): seq<T>
    requires |mask| == |xs|
  {
    if xs == [] then []
    else Select(xs[..|xs| - 1], mask[..|mask| - 1]) + (if mask[|mask| - 1] then [xs[|xs| - 1]] else [])
  }

  /** A mask computed elementwise from p selects what p filters. */
  lemma {:induction false} SelectFilter<T>(xs: seq<T>, mask: seq<bool>, p: T -> bool)
    requires |mask| == |xs|
    requires forall i :: 0 <= i < |xs| ==> mask[i] == p(xs[i])
    ensures Select(xs, mask) == Filter(xs, p)
  {
    if xs != [] {
      SelectFilter(xs[..|xs| - 1], mask[..|mask| - 1], p);
    }
  }

  /** ys is xs at the strictly increasing positions idx. */
  predicate SubsequenceAt<T(==)>(ys: seq<T>, xs: seq<T>, idx: seq<int>)
  {
    && |idx| == |ys|
    && (forall k :: 0 <= k < |idx| ==> 0 <= idx[k] < |xs| && ys[k] == xs[idx[k]])
    && (forall k, l :: 0 <= k < l < |idx| ==> idx[k] < idx[l])
  }

  /** The positions Filter keeps. */
  function FilterIndices<T>(xs: seq<T>, p: T -> bool): seq<int>
  {
    if xs == [] then []
    else FilterIndices(xs[..|xs| - 1], p) + (if p(xs[|xs| - 1]) then [|xs| - 1] else [])
  }

  /** Filter keeps, in order, exactly the positions whose element satisfies p. */
  lemma {:induction false} FilterSubsequence<T>(xs: seq<T>, p: T -> bool)
    ensures SubsequenceAt(Filter(xs, p), xs, FilterIndices(xs, p))
    ensures forall i :: 0 <= i < |xs| ==> (i in FilterIndices(xs, p) <==> p(xs[i]))
  {
    if xs != [] {
      var init, last := xs[..|xs| - 1], xs[|xs| - 1];
      FilterSubsequence(init, p);
      var ys, idx := Filter(init, p), FilterIndices(init, p);
      forall k | 0 <= k < |idx| ensures idx[k] < |init| && ys[k] == xs[idx[k]] {
        assert init[idx[k]] == xs[idx[k]];
      }
      forall i | 0 <= i < |xs| ensures i in FilterIndices(xs, p) <==> p(xs[i]) {
        if i < |init| {
          assert init[i] == xs[i];
        }
      }
    }
  }

  lemma {:induction false} MapIndex<T, U>(xs: seq<T>, g: T -> U)
    ensures forall i :: 0 <= i < |xs| ==> Map(xs, g)[i] == g(xs[i])
  {
    if xs != [] {
      var init := xs[..|xs| - 1];
      MapIndex(init, g);
      forall i | 0 <= i < |init| ensures Map(xs, g)[i] == g(xs[i]) {
        assert init[i] == xs[i];
      }
    }
  }
}
