/** Interpolated quantiles, over the real numbers. */
module Quantiles {
  import opened Orders
  import opened Wrappers

  predicate AtMost(x: real, y: real) {
    x <= y
  }

  function Insert(x: real, sorted: seq<real>): seq<real> {
    InsertBy(x, sorted, AtMost)
  }

  function Sort(values: seq<real>): (r: seq<real>)
    ensures |r| == |values|
  {
    SortBy(values, AtMost)
  }

  predicate Ascending(values: seq<real>) {
    SortedBy(values, AtMost)
  }

  lemma SortSorted(values: seq<real>)
    ensures Ascending(Sort(values)) && multiset(Sort(values)) == multiset(values)
  {
    SortSorts(values, AtMost);
    SortKeeps(values, AtMost);
  }

  // ---------- The two definitions ----------

  /** The value a fraction of the way from one sorted neighbour to the next. */
  function Between(low: real, high: real, fraction: real): real {
    low + (high - low) * fraction
  }

  /** Where a probability falls among `count` sorted observations. */
  function Position(count: nat, probability: real): (h: real)
    requires count >= 1 && 0.0 <= probability <= 1.0
    ensures 0.0 <= h <= (count - 1) as real
  {
    MulKeepsSign((count - 1) as real, probability);
    MulKeepsSign((count - 1) as real, 1.0 - probability);
    MulSplits((count - 1) as real, 1.0, probability);
    (count - 1) as real * probability
  }

  /** Interpolation in which the upper neighbour is the next index, or the last one. */
  function At(ordered: seq<real>, h: real): real
    requires ordered != [] && 0.0 <= h <= (|ordered| - 1) as real
  {
    var lower := h.Floor;
    var upper := if lower + 1 < |ordered| - 1 then lower + 1 else |ordered| - 1;
    Between(ordered[lower], ordered[upper], h - lower as real)
  }

  /** The study's quantile of an ordered sample. */
  function OrderedQuantile(ordered: seq<real>, probability: real): real
    requires ordered != [] && 0.0 <= probability <= 1.0
  {
    if |ordered| == 1 then ordered[0] else At(ordered, Position(|ordered|, probability))
  }

  /** The study's quantile: a probability outside the unit interval is rejected, and an empty sample has none. */
  function Quantile(values: seq<real>, probability: real): (r: Result<Option<real>, string>)
    ensures r.Ok? <==> 0.0 <= probability <= 1.0
    ensures r.Ok? ==> (r.value.None? <==> values == [])
  {
    if !(0.0 <= probability <= 1.0) then Err("probability must be between 0 and 1")
    else if values == [] then Ok(None)
    else Ok(Some(OrderedQuantile(Sort(values), probability)))
  }

  /** The quality stage's percentile of a sorted sample: its upper neighbour is the ceiling of the rank. */
  function Percentile(sorted: seq<real>, fraction: real): real
    requires sorted != [] && 0.0 <= fraction <= 1.0
  {
    var rank := Position(|sorted|, fraction);
    var lower := rank.Floor;
    var upper := if rank == lower as real then lower else lower + 1;
    Between(sorted[lower], sorted[upper], rank - lower as real)
  }

  lemma MulKeepsSign(a: real, b: real)
    requires a >= 0.0 && b >= 0.0
    ensures a * b >= 0.0
  {
  }

  lemma MulSplits(a: real, b: real, c: real)
    ensures a * (b - c) == a * b - a * c
  {
  }

  lemma PositionGrows(count: nat, probability: real, more: real)
    requires count >= 1 && 0.0 <= probability <= more <= 1.0
    ensures Position(count, probability) <= Position(count, more)
  {
    MulKeepsSign((count - 1) as real, more - probability);
    MulSplits((count - 1) as real, more, probability);
  }

  /** A single observation needs no case of its own. */
  lemma OneObservation(ordered: seq<real>, probability: real)
    requires ordered != [] && 0.0 <= probability <= 1.0
    ensures OrderedQuantile(ordered, probability) == At(ordered, Position(|ordered|, probability))
  {
    hide Position;
  }

  lemma UpperRulesAgree(ordered: seq<real>, h: real)
    requires ordered != [] && 0.0 <= h <= (|ordered| - 1) as real
    ensures var lower := h.Floor;
            var upper := if h == lower as real then lower else lower + 1;
            At(ordered, h) == Between(ordered[lower], ordered[upper], h - lower as real)
  {
  }

  /** The two rules for the upper neighbour give the same value, although they pick different neighbours. */
  lemma QuantileIsPercentile(values: seq<real>, probability: real)
    requires values != [] && 0.0 <= probability <= 1.0
    ensures Quantile(values, probability) == Ok(Some(Percentile(Sort(values), probability)))
  {
    hide Sort, Position, OrderedQuantile;
    OneObservation(Sort(values), probability);
    UpperRulesAgree(Sort(values), Position(|values|, probability));
  }

  lemma BetweenBounds(low: real, high: real, fraction: real)
    requires low <= high && 0.0 <= fraction <= 1.0
    ensures low <= Between(low, high, fraction) <= high
  {
    MulKeepsSign(high - low, fraction);
    MulKeepsSign(high - low, 1.0 - fraction);
    MulSplits(high - low, 1.0, fraction);
  }

  lemma BetweenGrows(low: real, high: real, fraction: real, more: real)
    requires low <= high && fraction <= more
    ensures Between(low, high, fraction) <= Between(low, high, more)
  {
    MulKeepsSign(high - low, more - fraction);
    MulSplits(high - low, more, fraction);
  }

  lemma BetweenDominates(low: real, high: real, low': real, high': real, fraction: real)
    requires low <= low' && high <= high' && 0.0 <= fraction <= 1.0
    ensures Between(low, high, fraction) <= Between(low', high', fraction)
  {
    MulKeepsSign(1.0 - fraction, low' - low);
    MulKeepsSign(fraction, high' - high);
    MulSplits(1.0 - fraction, low', low);
    MulSplits(fraction, high', high);
    Mix(low, high, fraction);
    Mix(low', high', fraction);
  }

  lemma Mix(low: real, high: real, fraction: real)
    ensures Between(low, high, fraction) == (1.0 - fraction) * low + fraction * high
  {
    MulSplits(fraction, high, low);
    MulSplits(low, 1.0, fraction);
  }

  lemma AtBounds(ordered: seq<real>, h: real)
    requires Ascending(ordered) && ordered != [] && 0.0 <= h <= (|ordered| - 1) as real
    ensures ordered[h.Floor] <= At(ordered, h)
    ensures h.Floor + 1 < |ordered| ==> At(ordered, h) <= ordered[h.Floor + 1]
    ensures h.Floor + 1 >= |ordered| ==> At(ordered, h) == ordered[h.Floor]
  {
    hide Between;
    var lower := h.Floor;
    if lower + 1 < |ordered| {
      BetweenBounds(ordered[lower], ordered[lower + 1], h - lower as real);
    } else {
      AtEnd(ordered[lower], h - lower as real);
    }
  }

  lemma AtEnd(x: real, fraction: real)
    ensures Between(x, x, fraction) == x
  {
  }

  // ---------- Theorems ----------

  /** A sorted arrangement of the observations. */
  predicate Arranges(sorted: seq<real>, values: seq<real>) {
    && multiset(sorted) == multiset(values)
    && forall i, j :: 0 <= i < j < |sorted| ==> sorted[i] <= sorted[j]
  }

  lemma ArrangesSort(sorted: seq<real>, values: seq<real>)
    requires Arranges(sorted, values)
    ensures Sort(values) == sorted && |sorted| == |values|
  {
    hide Sort;
    SortSorted(values);
    OneArrangement(Sort(values), sorted, AtMost);
  }

  lemma DivideIn(a: real, b: real)
    requires 0.0 <= a <= b && b > 0.0
    ensures 0.0 <= a / b <= 1.0 && b * (a / b) == a
  {
  }

  /**
   Between two ranks the quantile mixes the two observations of those ranks. So the quantile runs through all the sorted
   observations in order, at equal distances of the probability, and is linear between them.
   */
  lemma QuantileAtRank(values: seq<real>, sorted: seq<real>, k: nat, fraction: real)
    requires Arranges(sorted, values) && k + 1 < |sorted| && 0.0 <= fraction <= 1.0
    ensures var probability := (k as real + fraction) / (|sorted| - 1) as real;
            && 0.0 <= probability <= 1.0
            && Quantile(values, probability) ==
               Ok(Some((1.0 - fraction) * sorted[k] + fraction * sorted[k + 1]))
  {
    hide Sort, At, Between;
    ArrangesSort(sorted, values);
    var n, h := (|sorted| - 1) as real, k as real + fraction;
    DivideIn(h, n);
    assert Position(|sorted|, h / n) == h;
    AtRank(sorted, k, fraction);
  }

  lemma AtRank(sorted: seq<real>, k: nat, fraction: real)
    requires k + 1 < |sorted| && 0.0 <= fraction <= 1.0
    ensures At(sorted, k as real + fraction) == (1.0 - fraction) * sorted[k] + fraction * sorted[k + 1]
  {
    hide Between;
    if fraction == 1.0 {
      var upper := if k + 2 < |sorted| - 1 then k + 2 else |sorted| - 1;
      assert (k as real + fraction).Floor == k + 1;
      Mix(sorted[k + 1], sorted[upper], 0.0);
    } else {
      assert (k as real + fraction).Floor == k;
      Mix(sorted[k], sorted[k + 1], fraction);
    }
  }

  /** An observation is the quantile of its rank. */
  lemma QuantileIsObservation(values: seq<real>, sorted: seq<real>, k: nat)
    requires Arranges(sorted, values) && k < |sorted| && |sorted| > 1
    ensures var probability := k as real / (|sorted| - 1) as real;
            0.0 <= probability <= 1.0 && Quantile(values, probability) == Ok(Some(sorted[k]))
  {
    hide Sort, Quantile, Arranges;
    var last := k == |sorted| - 1;
    QuantileAtRank(values, sorted, if last then k - 1 else k, if last then 1.0 else 0.0);
    assert last ==> (k - 1) as real + 1.0 == k as real;
    assert !last ==> k as real + 0.0 == k as real;
  }

  /** The least, the greatest and the middle of the observations are quantiles. */
  lemma QuantileLandmarks(values: seq<real>, sorted: seq<real>)
    requires Arranges(sorted, values) && sorted != []
    ensures Quantile(values, 0.0) == Ok(Some(sorted[0]))
    ensures Quantile(values, 1.0) == Ok(Some(sorted[|sorted| - 1]))
    ensures |sorted| % 2 == 1 ==> Quantile(values, 0.5) == Ok(Some(sorted[|sorted| / 2]))
    ensures |sorted| % 2 == 0 ==>
              Quantile(values, 0.5) == Ok(Some(0.5 * sorted[|sorted| / 2 - 1] + 0.5 * sorted[|sorted| / 2]))
  {
    hide Sort, Quantile, Arranges;
    if |sorted| == 1 {
      OnlyObservation(values, sorted);
    } else {
      QuantileIsObservation(values, sorted, 0);
      QuantileIsObservation(values, sorted, |sorted| - 1);
      WholePart((|sorted| - 1) as real);
      Middle(values, sorted);
    }
  }

  lemma Middle(values: seq<real>, sorted: seq<real>)
    requires Arranges(sorted, values) && |sorted| > 1
    ensures |sorted| % 2 == 1 ==> Quantile(values, 0.5) == Ok(Some(sorted[|sorted| / 2]))
    ensures |sorted| % 2 == 0 ==>
              Quantile(values, 0.5) == Ok(Some(0.5 * sorted[|sorted| / 2 - 1] + 0.5 * sorted[|sorted| / 2]))
  {
    hide Sort, Quantile, Arranges;
    var n, m := |sorted| - 1, |sorted| / 2;
    if |sorted| % 2 == 1 {
      QuantileIsObservation(values, sorted, m);
      Half(n, m as real);
    } else {
      QuantileAtRank(values, sorted, m - 1, 0.5);
      Half(n, (m - 1) as real + 0.5);
    }
  }

  lemma OnlyObservation(values: seq<real>, sorted: seq<real>)
    requires Arranges(sorted, values) && |sorted| == 1
    ensures forall p :: 0.0 <= p <= 1.0 ==> Quantile(values, p) == Ok(Some(sorted[0]))
  {
    hide Sort;
    ArrangesSort(sorted, values);
  }

  lemma WholePart(n: real)
    requires n > 0.0
    ensures 0.0 / n == 0.0 && n / n == 1.0
  {
  }

  lemma Half(n: nat, h: real)
    requires n > 0 && h + h == n as real
    ensures h / n as real == 0.5
  {
  }

  /** The order of the observations does not matter. */
  lemma PermutationInvariance(one: seq<real>, two: seq<real>, probability: real)
    requires multiset(one) == multiset(two)
    ensures Quantile(one, probability) == Quantile(two, probability)
  {
    hide Sort, OrderedQuantile;
    SortSorted(one);
    SortSorted(two);
    OneArrangement(Sort(one), Sort(two), AtMost);
    SameLength(one, two);
  }

  predicate Inside(values: seq<real>, least: real, greatest: real) {
    forall k :: 0 <= k < |values| ==> least <= values[k] <= greatest
  }

  /** A quantile lies between the least and the greatest observation. */
  lemma WithinRange(values: seq<real>, probability: real, least: real, greatest: real)
    requires values != [] && 0.0 <= probability <= 1.0 && Inside(values, least, greatest)
    ensures least <= OrderedQuantile(Sort(values), probability) <= greatest
  {
    hide Sort, At, OrderedQuantile, Position;
    var sorted := Sort(values);
    OneObservation(sorted, probability);
    SortSorted(values);
    AtBounds(sorted, Position(|sorted|, probability));
    SameMembers(values, sorted, least, greatest);
  }

  lemma SameMembers(values: seq<real>, sorted: seq<real>, least: real, greatest: real)
    requires multiset(values) == multiset(sorted) && Inside(values, least, greatest)
    ensures Inside(sorted, least, greatest)
  {
    forall k | 0 <= k < |sorted| ensures least <= sorted[k] <= greatest {
      assert sorted[k] in multiset(values);
    }
  }

  lemma AtGrows(ordered: seq<real>, h: real, more: real)
    requires Ascending(ordered) && ordered != [] && 0.0 <= h <= more <= (|ordered| - 1) as real
    ensures At(ordered, h) <= At(ordered, more)
  {
    hide Between;
    var lower, lower' := h.Floor, more.Floor;
    AtBounds(ordered, h);
    AtBounds(ordered, more);
    if lower == lower' {
      var upper := if lower + 1 < |ordered| - 1 then lower + 1 else |ordered| - 1;
      BetweenGrows(ordered[lower], ordered[upper], h - lower as real, more - lower as real);
    } else {
      assert lower + 1 <= lower';
      assert ordered[lower + 1] <= ordered[lower'];
    }
  }

  /** A higher probability never gives a lower quantile. */
  lemma MonotoneInProbability(values: seq<real>, probability: real, more: real)
    requires values != [] && 0.0 <= probability <= more <= 1.0
    ensures OrderedQuantile(Sort(values), probability) <= OrderedQuantile(Sort(values), more)
  {
    hide Sort, At, Position, OrderedQuantile;
    var sorted := Sort(values);
    OneObservation(sorted, probability);
    OneObservation(sorted, more);
    SortSorted(values);
    PositionGrows(|sorted|, probability, more);
    AtGrows(sorted, Position(|sorted|, probability), Position(|sorted|, more));
  }

  predicate Dominated(one: seq<real>, two: seq<real>) {
    |one| == |two| && forall k :: 0 <= k < |one| ==> one[k] <= two[k]
  }

  lemma ConsDominates(x: real, y: real, one: seq<real>, two: seq<real>)
    requires x <= y && Dominated(one, two)
    ensures Dominated([x] + one, [y] + two)
  {
  }

  lemma TailDominates(one: seq<real>, two: seq<real>)
    requires Dominated(one, two) && one != []
    ensures two != [] && one[0] <= two[0] && Dominated(one[1..], two[1..])
  {
  }

  lemma TailAscends(sorted: seq<real>)
    requires Ascending(sorted) && sorted != []
    ensures Ascending(sorted[1..]) && (|sorted| > 1 ==> sorted[0] <= sorted[1..][0])
    ensures Insert(sorted[0], sorted[1..]) == sorted
  {
    InsertFirst(sorted[0], sorted[1..]);
  }

  lemma {:induction false} InsertDominates(x: real, y: real, one: seq<real>, two: seq<real>)
    requires x <= y && Dominated(one, two) && Ascending(one) && Ascending(two)
    ensures Dominated(Insert(x, one), Insert(y, two))
    decreases |one|
  {
    if one == [] {
    } else {
      hide Dominated, Ascending;
      TailDominates(one, two);
      TailAscends(one);
      TailAscends(two);
      if x <= one[0] && y <= two[0] {
        ConsDominates(x, y, one, two);
      } else if x <= one[0] {
        InsertDominates(one[0], y, one[1..], two[1..]);
        ConsDominates(x, two[0], one, Insert(y, two[1..]));
      } else if y <= two[0] {
        InsertDominates(x, two[0], one[1..], two[1..]);
        ConsDominates(one[0], y, Insert(x, one[1..]), two);
      } else {
        InsertDominates(x, y, one[1..], two[1..]);
        ConsDominates(one[0], two[0], Insert(x, one[1..]), Insert(y, two[1..]));
      }
    }
  }

  /** A value that is not above the first element goes in front. */
  lemma InsertFirst(x: real, sorted: seq<real>)
    requires sorted == [] || x <= sorted[0]
    ensures Insert(x, sorted) == [x] + sorted
  {
  }

  lemma {:induction false} SortDominates(one: seq<real>, two: seq<real>)
    requires Dominated(one, two)
    ensures Dominated(Sort(one), Sort(two))
  {
    if one != [] {
      SortDominates(one[1..], two[1..]);
      SortSorted(one[1..]);
      SortSorted(two[1..]);
      InsertDominates(one[0], two[0], Sort(one[1..]), Sort(two[1..]));
    }
  }

  lemma AtDominates(one: seq<real>, two: seq<real>, h: real)
    requires Dominated(one, two) && one != [] && 0.0 <= h <= (|one| - 1) as real
    ensures At(one, h) <= At(two, h)
  {
    hide Between;
    var lower := h.Floor;
    var upper := if lower + 1 < |one| - 1 then lower + 1 else |one| - 1;
    BetweenDominates(one[lower], one[upper], two[lower], two[upper], h - lower as real);
  }

  /** Raising observations never lowers a quantile. */
  lemma MonotoneInObservations(one: seq<real>, two: seq<real>, probability: real)
    requires one != [] && Dominated(one, two) && 0.0 <= probability <= 1.0
    ensures OrderedQuantile(Sort(one), probability) <= OrderedQuantile(Sort(two), probability)
  {
    hide Sort, At, Position, OrderedQuantile;
    OneObservation(Sort(one), probability);
    OneObservation(Sort(two), probability);
    SortDominates(one, two);
    AtDominates(Sort(one), Sort(two), Position(|one|, probability));
  }
}
