/** Row selection with a boolean mask, as `df.loc[mask]` does: the rows whose
    mask entry is true, in their original order. */
module Selection {

  function Select<T>(xs: seq<T>, mask: seq<bool>): (r: seq<T>)
    requires |xs| == |mask|
    ensures |r| <= |xs|
  {
    if xs == [] then []
    else Select(xs[..|xs| - 1], mask[..|mask| - 1]) + (if mask[|mask| - 1] then [xs[|xs| - 1]] else [])
  }

  /** The positions whose mask entry is true, in increasing order. */
  function SelectedIndices(mask: seq<bool>): seq<nat> {
    if mask == [] then []
    else SelectedIndices(mask[..|mask| - 1]) + (if mask[|mask| - 1] then [|mask| - 1] else [])
  }

  predicate StrictlyIncreasing(idx: seq<nat>) {
    forall k, l :: 0 <= k < l < |idx| ==> idx[k] < idx[l]
  }

  /** The selected indices are increasing and are exactly the positions whose mask
      entry is true. */
  lemma {:induction false} SelectedIndicesExact(mask: seq<bool>)
    ensures StrictlyIncreasing(SelectedIndices(mask))
    ensures forall k :: 0 <= k < |SelectedIndices(mask)| ==> SelectedIndices(mask)[k] < |mask|
    ensures forall i :: 0 <= i < |mask| ==> (mask[i] <==> i in SelectedIndices(mask))
  {
    if mask != [] {
      var init := mask[..|mask| - 1];
      SelectedIndicesExact(init);
      assert forall i :: 0 <= i < |init| ==> init[i] == mask[i];
    }
  }

  /** The k-th selected row is the row at the k-th selected index: the selection keeps
      exactly the masked rows and keeps them in order. */
  lemma {:induction false} SelectByIndices<T>(xs: seq<T>, mask: seq<bool>)
    requires |xs| == |mask|
    ensures |Select(xs, mask)| == |SelectedIndices(mask)|
    ensures forall k :: 0 <= k < |Select(xs, mask)| ==>
      SelectedIndices(mask)[k] < |xs| && Select(xs, mask)[k] == xs[SelectedIndices(mask)[k]]
  {
    SelectedIndicesExact(mask);
    if xs != [] {
      var xs', mask' := xs[..|xs| - 1], mask[..|mask| - 1];
      SelectByIndices(xs', mask');
      SelectedIndicesExact(mask');
      forall k | 0 <= k < |Select(xs', mask')|
        ensures Select(xs, mask)[k] == xs[SelectedIndices(mask)[k]]
      {
        assert Select(xs, mask)[k] == Select(xs', mask')[k];
        assert SelectedIndices(mask)[k] == SelectedIndices(mask')[k];
      }
    }
  }

  /** Every selected row comes from the input, and with no greater multiplicity. */
  lemma {:induction false} SelectSubMultiset<T>(xs: seq<T>, mask: seq<bool>)
    requires |xs| == |mask|
    ensures multiset(Select(xs, mask)) <= multiset(xs)
  {
    if xs != [] {
      var n := |xs| - 1;
      SelectSubMultiset(xs[..n], mask[..n]);
      SelectSnoc(xs, mask);
      MultisetSnoc(xs);
      BagAtMostOne(mask[n], xs[n]);
    }
  }

  /** Selecting commutes with a per-row map: deriving a column and then selecting
      rows gives, row by row, the column derived from the selected rows. */
  lemma SelectMap<T, U>(f: T -> U, xs: seq<T>, ys: seq<U>, mask: seq<bool>)
    requires |xs| == |mask| && |ys| == |xs|
    requires forall i :: 0 <= i < |xs| ==> ys[i] == f(xs[i])
    ensures |Select(ys, mask)| == |Select(xs, mask)|
    ensures forall k :: 0 <= k < |Select(xs, mask)| ==> Select(ys, mask)[k] == f(Select(xs, mask)[k])
  {
    SelectByIndices(xs, mask);
    SelectByIndices(ys, mask);
  }

  predicate ExactlyOne(a: bool, b: bool, c: bool) {
    (a && !b && !c) || (!a && b && !c) || (!a && !b && c)
  }

  function Bag<T>(b: bool, x: T): multiset<T> {
    if b then multiset{x} else multiset{}
  }

  lemma BagAtMostOne<T>(b: bool, x: T)
    ensures Bag(b, x) <= multiset{x}
  {
  }

  /** Selecting from a non-empty sequence decides its last row last. */
  lemma SelectSnoc<T>(xs: seq<T>, mask: seq<bool>)
    requires |xs| == |mask| && |xs| > 0
    ensures multiset(Select(xs, mask)) == multiset(Select(xs[..|xs| - 1], mask[..|xs| - 1])) + Bag(mask[|xs| - 1], xs[|xs| - 1])
  {
  }

  /** Three masks of which exactly one holds at each position split the rows: the
      three selections together hold every row once. */
  lemma {:induction false} SelectPartition<T>(xs: seq<T>, m1: seq<bool>, m2: seq<bool>, m3: seq<bool>)
    requires |m1| == |xs| && |m2| == |xs| && |m3| == |xs|
    requires forall i :: 0 <= i < |xs| ==> ExactlyOne(m1[i], m2[i], m3[i])
    ensures multiset(Select(xs, m1)) + multiset(Select(xs, m2)) + multiset(Select(xs, m3)) == multiset(xs)
  {
    if xs != [] {
      var n := |xs| - 1;
      var xs', m1', m2', m3' := xs[..n], m1[..n], m2[..n], m3[..n];
      assert forall i :: 0 <= i < n ==> m1'[i] == m1[i] && m2'[i] == m2[i] && m3'[i] == m3[i];
      SelectPartition(xs', m1', m2', m3');
      var x := xs[n];
      var a, b, c := multiset(Select(xs', m1')), multiset(Select(xs', m2')), multiset(Select(xs', m3'));
      var da, db, dc := Bag(m1[n], x), Bag(m2[n], x), Bag(m3[n], x);
      SelectSnoc(xs, m1);
      SelectSnoc(xs, m2);
      SelectSnoc(xs, m3);
      BagSum(m1[n], m2[n], m3[n], x);
      MultisetSnoc(xs);
      calc {
        multiset(Select(xs, m1)) + multiset(Select(xs, m2)) + multiset(Select(xs, m3));
        (a + da) + (b + db) + (c + dc);
        { Regroup(a, b, c, multiset(xs'), da, db, dc, x); }
        multiset(xs') + multiset{x};
        multiset(xs);
      }
    }
  }

  lemma MultisetSnoc<T>(xs: seq<T>)
    requires |xs| > 0
    ensures multiset(xs) == multiset(xs[..|xs| - 1]) + multiset{xs[|xs| - 1]}
  {
    assert xs == xs[..|xs| - 1] + [xs[|xs| - 1]];
  }

  /** The three selections' sizes add up to the number of rows. */
  lemma SelectPartitionSizes<T>(xs: seq<T>, m1: seq<bool>, m2: seq<bool>, m3: seq<bool>)
    requires |m1| == |xs| && |m2| == |xs| && |m3| == |xs|
    requires forall i :: 0 <= i < |xs| ==> ExactlyOne(m1[i], m2[i], m3[i])
    ensures |Select(xs, m1)| + |Select(xs, m2)| + |Select(xs, m3)| == |xs|
  {
    SelectPartition(xs, m1, m2, m3);
    assert |multiset(Select(xs, m1)) + multiset(Select(xs, m2)) + multiset(Select(xs, m3))| == |multiset(xs)|;
  }

  lemma BagSum<T>(a: bool, b: bool, c: bool, x: T)
    requires ExactlyOne(a, b, c)
    ensures Bag(a, x) + Bag(b, x) + Bag(c, x) == multiset{x}
  {
  }

  lemma Regroup<T>(a: multiset<T>, b: multiset<T>, c: multiset<T>, whole: multiset<T>,
                   da: multiset<T>, db: multiset<T>, dc: multiset<T>, x: T)
    requires a + b + c == whole && da + db + dc == multiset{x}
    ensures (a + da) + (b + db) + (c + dc) == whole + multiset{x}
  {
  }
}
