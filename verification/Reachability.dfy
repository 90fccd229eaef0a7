/** Reachability by a nonempty chain of edges: the specification of the worklists. */
module Reachability {

  ghost predicate Chain<N(!new)>(edge: (N, N) -> bool, chain: seq<N>) {
    |chain| >= 2 && forall i :: 0 <= i < |chain| - 1 ==> edge(chain[i], chain[i + 1])
  }

  ghost predicate Reaches<N(!new)>(edge: (N, N) -> bool, from: N, to: N) {
    exists chain :: Chain(edge, chain) && chain[0] == from && chain[|chain| - 1] == to
  }

  ghost predicate ReachesOrIs<N(!new)>(edge: (N, N) -> bool, from: N, to: N) {
    to == from || Reaches(edge, from, to)
  }

  lemma Follow<N(!new)>(edge: (N, N) -> bool, from: N, via: N, to: N)
    requires ReachesOrIs(edge, from, via) && edge(via, to)
    ensures Reaches(edge, from, to)
  {
    if via == from {
      assert Chain(edge, [from, to]);
    } else {
      var chain :| Chain(edge, chain) && chain[0] == from && chain[|chain| - 1] == via;
      assert Chain(edge, chain + [to]);
    }
  }

  /** The first edge of a chain. */
  lemma FirstStep<N(!new)>(edge: (N, N) -> bool, from: N, to: N)
    requires Reaches(edge, from, to)
    ensures exists via :: edge(from, via)
  {
    var chain :| Chain(edge, chain) && chain[0] == from && chain[|chain| - 1] == to;
    assert edge(chain[0], chain[1]);
  }

  /** The last edge of a chain. */
  lemma LastStep<N(!new)>(edge: (N, N) -> bool, from: N, to: N) returns (via: N)
    requires Reaches(edge, from, to)
    ensures ReachesOrIs(edge, from, via) && edge(via, to)
  {
    var chain :| Chain(edge, chain) && chain[0] == from && chain[|chain| - 1] == to;
    var n := |chain| - 1;
    via := chain[n - 1];
    assert edge(chain[n - 1], chain[n]);
    if n > 1 {
      var shorter := chain[..n];
      assert forall i :: 0 <= i < n ==> shorter[i] == chain[i];
      assert Chain(edge, shorter) && shorter[|shorter| - 1] == via;
    }
  }

  /** A set that the edges cannot leave, and that holds every successor of `from`, holds everything reachable. */
  lemma Closed<N(!new)>(edge: (N, N) -> bool, from: N, nodes: set<N>, to: N)
    requires forall b :: edge(from, b) ==> b in nodes
    requires forall a, b :: a in nodes && edge(a, b) ==> b in nodes
    requires Reaches(edge, from, to)
    ensures to in nodes
  {
    var chain :| Chain(edge, chain) && chain[0] == from && chain[|chain| - 1] == to;
    ClosedChain(edge, from, nodes, chain, |chain| - 1);
  }

  lemma {:induction false} ClosedChain<N(!new)>(
    edge: (N, N) -> bool, from: N, nodes: set<N>, chain: seq<N>, k: nat)
    requires forall b :: edge(from, b) ==> b in nodes
    requires forall a, b :: a in nodes && edge(a, b) ==> b in nodes
    requires Chain(edge, chain) && chain[0] == from && 0 < k < |chain|
    ensures chain[k] in nodes
  {
    assert edge(chain[k - 1], chain[k]);
    if k > 1 {
      ClosedChain(edge, from, nodes, chain, k - 1);
    }
  }
}
