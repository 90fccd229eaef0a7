/** The canonical argmax of a row of logits: ties go to the least index, and a positive zero beats a negative one. */
module Argmax {
  import opened Wrappers

  /** A 32-bit float as far as comparisons see it; `Finite(0.0)` is the positive zero. */
  datatype Logit = NaN | NegInf | NegZero | Finite(v: real) | PosInf

  predicate IsZero(x: Logit) {
    x.NegZero? || x == Finite(0.0)
  }

  function Num(x: Logit): real
    requires x.NegZero? || x.Finite?
  {
    if x.NegZero? then 0.0 else x.v
  }

  /** The floating-point `>`. */
  predicate Greater(x: Logit, y: Logit) {
    if x.NaN? || y.NaN? || x.NegInf? || y.PosInf? then false
    else if x.PosInf? || y.NegInf? then true
    else Num(x) > Num(y)
  }

  predicate Positive(x: Logit) {
    x.PosInf? || (x.Finite? && x.v >= 0.0)
  }

  /** The test that replaces the best value so far. */
  predicate Beats(value: Logit, best: Logit) {
    Greater(value, best) || (IsZero(value) && IsZero(best) && Positive(value) && !Positive(best))
  }

  // ---------- The total order behind it ----------

  function Class(x: Logit): int {
    if x.NegInf? then -1 else if x.PosInf? then 1 else 0
  }

  /** The total order of non-NaN values in which the negative zero lies just below the positive one. */
  predicate Below(x: Logit, y: Logit)
    requires !x.NaN? && !y.NaN?
  {
    || Class(x) < Class(y)
    || (Class(x) == Class(y) == 0 && (Num(x) < Num(y) || (Num(x) == Num(y) && x.NegZero? && !y.NegZero?)))
  }

  lemma BeatsIsTheOrder(x: Logit, y: Logit)
    requires !x.NaN? && !y.NaN?
    ensures Beats(x, y) <==> Below(y, x)
    ensures Below(x, y) || Below(y, x) || x == y
    ensures !(Below(x, y) && Below(y, x))
  {
  }

  lemma BelowIsTransitive(x: Logit, y: Logit, z: Logit)
    requires !x.NaN? && !y.NaN? && !z.NaN?
    ensures Below(x, y) && Below(y, z) ==> Below(x, z)
    ensures !Below(y, x) && !Below(z, y) ==> !Below(z, x)
  {
  }

  // ---------- The scan ----------

  predicate NaNFree(values: seq<Logit>) {
    forall k :: 0 <= k < |values| ==> !values[k].NaN?
  }

  /** The best index among the first `n` values. */
  function Best(values: seq<Logit>, n: nat): (b: nat)
    requires 1 <= n <= |values|
    ensures b < n
  {
    if n == 1 then 0 else
    var best := Best(values, n - 1);
    if Beats(values[n - 1], values[best]) then n - 1 else best
  }

  predicate IsFinite(x: Logit) {
    x.Finite? || x.NegZero?
  }

  function CanonicalArgmaxOf(values: seq<Logit>): Result<nat, string> {
    if values == [] then Err("row is empty")
    else if !NaNFree(values) then Err("row contains NaN")
    else
      var best := Best(values, |values|);
      if IsFinite(values[best]) then Ok(best) else Err("row has no finite value")
  }

  method CanonicalArgmax(values: seq<Logit>) returns (r: Result<nat, string>)
    ensures r == CanonicalArgmaxOf(values)
  {
    if values == [] {
      return Err("row is empty");
    }
    if exists k :: 0 <= k < |values| && values[k].NaN? {
      return Err("row contains NaN");
    }
    var best := 0;
    for index := 1 to |values|
      invariant best < index && best == Best(values, index)
    {
      var value := values[index];
      if Greater(value, values[best])
         || (IsZero(value) && IsZero(values[best]) && Positive(value) && !Positive(values[best])) {
        best := index;
      }
    }
    r := if IsFinite(values[best]) then Ok(best) else Err("row has no finite value");
  }

  /** The least index whose value no other exceeds. */
  predicate IsLeastMaximum(values: seq<Logit>, b: nat)
    requires NaNFree(values) && b < |values|
  {
    && (forall k :: 0 <= k < |values| ==> !Below(values[b], values[k]))
    && (forall k :: 0 <= k < b ==> Below(values[k], values[b]))
  }

  lemma {:induction false} BestIsLeastMaximum(values: seq<Logit>, n: nat)
    requires NaNFree(values) && 1 <= n <= |values|
    ensures IsLeastMaximum(values[..n], Best(values, n))
  {
    hide Below, Beats;
    var prefix := values[..n];
    if n > 1 {
      BestIsLeastMaximum(values, n - 1);
      var best, x := Best(values, n - 1), values[n - 1];
      forall k | 0 <= k < n ensures prefix[k] == values[k] && (k < n - 1 ==> prefix[k] == values[..n - 1][k]) {
      }
      BeatsIsTheOrder(x, values[best]);
      BeatsIsTheOrder(x, x);
      forall k | 0 <= k < n - 1
        ensures Beats(x, values[best]) ==> Below(values[k], x) && !Below(x, values[k])
      {
        BeatsIsTheOrder(values[k], x);
        BelowIsTransitive(values[k], values[best], x);
        BelowIsTransitive(x, values[k], values[best]);
        BelowIsTransitive(x, values[best], values[k]);
        assert !Below(values[best], values[k]);
      }
    } else {
      BeatsIsTheOrder(values[0], values[0]);
    }
  }

  /**
   The argmax succeeds exactly on nonempty rows without NaN whose maximum is finite, and then it is the least index that
   is maximal in the total order.
   */
  lemma CanonicalArgmaxExact(values: seq<Logit>)
    ensures var r := CanonicalArgmaxOf(values);
            && (r.Ok? <==>
                 && values != [] && NaNFree(values)
                 && (forall k :: 0 <= k < |values| ==> !values[k].PosInf?)
                 && (exists k :: 0 <= k < |values| && !values[k].NegInf?))
            && (r.Ok? ==> r.value < |values| && IsLeastMaximum(values, r.value))
  {
    if values != [] && NaNFree(values) {
      BestIsLeastMaximum(values, |values|);
      assert values[..|values|] == values;
      var best := Best(values, |values|);
      assert forall k :: 0 <= k < |values| ==> !Below(values[best], values[k]);
    }
  }

  /** There is only one least maximum. */
  lemma LeastMaximumIsUnique(values: seq<Logit>, one: nat, two: nat)
    requires NaNFree(values) && one < |values| && two < |values|
    requires IsLeastMaximum(values, one) && IsLeastMaximum(values, two)
    ensures one == two
  {
    assert !Below(values[one], values[two]) && !Below(values[two], values[one]);
  }
}
