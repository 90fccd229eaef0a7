/** Sorting by an order, and when a sorted arrangement is the only one. */
module Orders {

  /** Every item stands in the relation to each later one. */
  predicate SortedBy<T>(items: seq<T>, order: (T, T) -> bool) {
    forall i, j :: 0 <= i < j < |items| ==> order(items[i], items[j])
  }

  ghost predicate TotalPreorder<T(!new)>(order: (T, T) -> bool) {
    && (forall x, y :: order(x, y) || order(y, x))
    && (forall x, y, z :: order(x, y) && order(y, z) ==> order(x, z))
  }

  ghost predicate Antisymmetric<T(!new)>(order: (T, T) -> bool) {
    forall x, y :: order(x, y) && order(y, x) ==> x == y
  }

  ghost predicate Asymmetric<T(!new)>(order: (T, T) -> bool) {
    forall x, y :: order(x, y) ==> !order(y, x)
  }

  function InsertBy<T>(x: T, sorted: seq<T>, order: (T, T) -> bool): (r: seq<T>)
    ensures |r| == |sorted| + 1
  {
    if sorted == [] || order(x, sorted[0]) then [x] + sorted else [sorted[0]] + InsertBy(x, sorted[1..], order)
  }

  function SortBy<T>(items: seq<T>, order: (T, T) -> bool): (r: seq<T>)
    ensures |r| == |items|
  {
    if items == [] then [] else InsertBy(items[0], SortBy(items[1..], order), order)
  }

  lemma TailMembers<T>(items: seq<T>)
    requires items != []
    ensures multiset(items[1..]) == multiset(items) - multiset{items[0]}
  {
    assert items == [items[0]] + items[1..];
  }

  lemma {:induction false} InsertKeeps<T>(x: T, sorted: seq<T>, order: (T, T) -> bool)
    ensures multiset(InsertBy(x, sorted, order)) == multiset(sorted) + multiset{x}
  {
    if sorted != [] && !order(x, sorted[0]) {
      InsertKeeps(x, sorted[1..], order);
      TailMembers(sorted);
      TailMembers(InsertBy(x, sorted, order));
      assert InsertBy(x, sorted, order)[1..] == InsertBy(x, sorted[1..], order);
    }
  }

  lemma FirstBefore<T(!new)>(x: T, sorted: seq<T>, order: (T, T) -> bool)
    requires TotalPreorder(order) && SortedBy(sorted, order) && (sorted == [] || order(x, sorted[0]))
    ensures SortedBy([x] + sorted, order)
  {
    forall k | 0 <= k < |sorted| ensures order(x, sorted[k]) {
      if k > 0 {
        assert order(sorted[0], sorted[k]);
      }
    }
  }

  lemma {:induction false} InsertSorts<T(!new)>(x: T, sorted: seq<T>, order: (T, T) -> bool)
    requires TotalPreorder(order) && SortedBy(sorted, order)
    ensures SortedBy(InsertBy(x, sorted, order), order)
  {
    if sorted == [] || order(x, sorted[0]) {
      FirstBefore(x, sorted, order);
    } else {
      var rest := InsertBy(x, sorted[1..], order);
      InsertSorts(x, sorted[1..], order);
      InsertKeeps(x, sorted[1..], order);
      forall k | 0 <= k < |rest| ensures order(sorted[0], rest[k]) {
        assert rest[k] in multiset(rest);
        assert rest[k] != x ==> rest[k] in sorted[1..];
      }
    }
  }

  lemma {:induction false} SortKeeps<T>(items: seq<T>, order: (T, T) -> bool)
    ensures multiset(SortBy(items, order)) == multiset(items)
  {
    if items != [] {
      SortKeeps(items[1..], order);
      InsertKeeps(items[0], SortBy(items[1..], order), order);
      assert items == [items[0]] + items[1..];
    }
  }

  lemma {:induction false} SortSorts<T(!new)>(items: seq<T>, order: (T, T) -> bool)
    requires TotalPreorder(order)
    ensures SortedBy(SortBy(items, order), order)
  {
    hide TotalPreorder, SortedBy;
    if items == [] {
      NothingSorted(order);
    } else {
      SortSorts(items[1..], order);
      InsertSorts(items[0], SortBy(items[1..], order), order);
    }
  }

  lemma NothingSorted<T>(order: (T, T) -> bool)
    ensures SortedBy([], order)
  {
  }

  lemma FirstIsLeast<T>(sorted: seq<T>, x: T, order: (T, T) -> bool)
    requires SortedBy(sorted, order) && x in multiset(sorted)
    ensures sorted != [] && (x == sorted[0] || order(sorted[0], x))
  {
  }

  lemma SameLength<T>(one: seq<T>, two: seq<T>)
    requires multiset(one) == multiset(two)
    ensures |one| == |two|
  {
    assert |multiset(one)| == |multiset(two)|;
  }

  /** Under an antisymmetric order a multiset has one sorted arrangement. */
  lemma {:induction false} OneArrangement<T(!new)>(one: seq<T>, two: seq<T>, order: (T, T) -> bool)
    requires Antisymmetric(order) && SortedBy(one, order) && SortedBy(two, order) && multiset(one) == multiset(two)
    ensures one == two
  {
    SameLength(one, two);
    if one != [] {
      assert one[0] in multiset(one) && two[0] in multiset(two);
      FirstIsLeast(two, one[0], order);
      FirstIsLeast(one, two[0], order);
      TailMembers(one);
      TailMembers(two);
      OneArrangement(one[1..], two[1..], order);
      assert one == [one[0]] + one[1..];
    }
  }

  predicate Distinct<T(==)>(items: seq<T>) {
    forall i, j :: 0 <= i < j < |items| ==> items[i] != items[j]
  }

  /** Items are distinct exactly when none is counted twice. */
  lemma {:induction false} DistinctCounts<T>(items: seq<T>)
    ensures Distinct(items) <==> forall x :: multiset(items)[x] <= 1
  {
    if items != [] {
      DistinctCounts(items[1..]);
      assert items == [items[0]] + items[1..];
      assert multiset(items[1..])[items[0]] > 0 <==> items[0] in items[1..];
      if Distinct(items) {
        assert Distinct(items[1..]) && items[0] !in items[1..];
      } else if Distinct(items[1..]) {
        var i, j :| 0 <= i < j < |items| && items[i] == items[j];
        assert i == 0 && items[0] == items[1..][j - 1];
        assert multiset(items)[items[0]] > 1;
      } else {
        var x :| multiset(items[1..])[x] > 1;
        assert multiset(items)[x] > 1;
      }
    }
  }

  /** A set has one strictly sorted arrangement. */
  lemma OneStrictArrangement<T(!new)>(one: seq<T>, two: seq<T>, less: (T, T) -> bool)
    requires Asymmetric(less) && SortedBy(one, less) && SortedBy(two, less)
    requires forall x :: x in one <==> x in two
    ensures one == two
  {
    assert Distinct(one) && Distinct(two);
    DistinctCounts(one);
    DistinctCounts(two);
    assert forall x :: x in one <==> x in multiset(one);
    assert forall x :: x in two <==> x in multiset(two);
    assert multiset(one) == multiset(two);
    OneArrangement(one, two, less);
  }
}
