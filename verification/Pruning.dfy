/** The adjacency lists of a pruned subgraph, step by step as they are filled. */
module Pruning {
  import opened FiniteSets
  import opened Powers
  import opened Filters
  import opened Cliques
  import opened Subgraphs
  import opened AdjacencyMaps
  import opened Hopscotch

  /** How many elements of P the vertex u is adjacent to. */
  ghost function Overlap(h: Adjacency, P: seq<Vertex>, u: Vertex): nat {
    if u in h then |Filter(P, h[u], true)| else 0
  }

  lemma NoOverlap(h: Adjacency)
    ensures forall u :: Overlap(h, [], u) == 0
  {
  }

  /** `pivot` has the most neighbours in P among the vertices seen so far. */
  ghost predicate BestSoFar(h: Adjacency, P: seq<Vertex>, seen: set<Vertex>, pivot: int, max_neighbors: int) {
    && (seen == {} ==> max_neighbors == -1)
    && (seen != {} ==> IsKey(pivot) && pivot in seen && Overlap(h, P, pivot) == max_neighbors)
    && forall u :: u in seen ==> Overlap(h, P, u) <= max_neighbors
  }

  lemma NothingSeen(h: Adjacency, P: seq<Vertex>, pivot: int)
    ensures BestSoFar(h, P, {}, pivot, -1)
  {
  }

  lemma TakeBetter(h: Adjacency, P: seq<Vertex>, seen: set<Vertex>, pivot: int, max_neighbors: int, node: Vertex)
    requires BestSoFar(h, P, seen, pivot, max_neighbors) && node in h
    ensures var n := |Filter(P, h[node], true)|;
            if n > max_neighbors then BestSoFar(h, P, seen + {node}, node, n)
                else BestSoFar(h, P, seen + {node}, pivot, max_neighbors)
  {
  }

  /** A vertex of P or X with the most neighbours in P. */
  ghost predicate BestOf(h: Adjacency, P: seq<Vertex>, X: seq<Vertex>, pivot: int) {
    && IsKey(pivot) && (pivot in P || pivot in X)
    && forall u :: u in P || u in X ==> Overlap(h, P, u) <= Overlap(h, P, pivot)
  }

  lemma AllSeen(h: Adjacency, P: seq<Vertex>, X: seq<Vertex>, pivot: int, max_neighbors: int)
    requires BestSoFar(h, P, ToSet(P) + ToSet(X), pivot, max_neighbors) && P != []
    ensures BestOf(h, P, X, pivot)
  {
    hide Overlap;
    assert P[0] in ToSet(P);
    forall u | u in P || u in X ensures u in ToSet(P) + ToSet(X) {
    }
  }

  /** The first i vertices of P have their lists. */
  ghost predicate InsideP(lists: Lists, h: Adjacency, P: seq<Vertex>, i: nat)
    requires i <= |P|
  {
    && lists.Keys == ToSet(P[..i])
    && forall v :: v in lists ==> v in h && ToSet(lists[v]) == h[v] * ToSet(P)
  }

  /** All of P and the vertices Xs of X have their lists, and the edges between them are in. */
  ghost predicate WithX(lists: Lists, h: Adjacency, P: seq<Vertex>, Xs: set<Vertex>) {
    && lists.Keys == ToSet(P) + Xs && ToSet(P) !! Xs && lists.Keys <= h.Keys
    && (forall v :: v in P ==> ToSet(lists[v]) == h[v] * ToSet(P) + AdjacentIn(h, Xs, v))
    && (forall x :: x in Xs ==> ToSet(lists[x]) == h[x] * ToSet(P))
  }

  /** In addition the vertex x has its list, and is in the lists of its neighbours D so far. */
  ghost predicate WithPartOf(lists: Lists, h: Adjacency, P: seq<Vertex>, Xs: set<Vertex>, x: Vertex, D: seq<Vertex>) {
    && x !in P && x !in Xs && ToSet(P) !! Xs && lists.Keys == ToSet(P) + Xs + {x} && lists.Keys <= h.Keys
    && (forall v :: v in P ==> ToSet(lists[v]) == h[v] * ToSet(P) + AdjacentIn(h, Xs, v) + if v in D then {x} else {})
    && (forall y :: y in Xs || y == x ==> ToSet(lists[y]) == h[y] * ToSet(P))
  }

  /** No list names a vertex twice, so that the sets are as large as the lists. */
  ghost predicate NoRepeats(lists: Lists) {
    forall v :: v in lists ==> NoDups(lists[v])
  }

  lemma NothingRepeats()
    ensures NoRepeats(map[])
  {
  }

  lemma FilteredWithoutRepeats(lists: Lists, P: seq<Vertex>, node: Vertex, S: set<Vertex>)
    requires NoRepeats(lists) && NoDups(P)
    ensures NoRepeats(lists[node := Filter(P, S, true)])
  {
    FilterIsSetOperation(P, S, true);
    hide Filter, NoDups;
  }

  lemma AddedWithoutRepeats(lists: Lists, h: Adjacency, P: seq<Vertex>, Xs: set<Vertex>, x: Vertex, D: seq<Vertex>,
        v: Vertex)
    requires WithPartOf(lists, h, P, Xs, x, D) && v in P && v !in D && NoRepeats(lists)
    ensures v in lists && NoRepeats(lists[v := lists[v] + [x]])
  {
    assert v in ToSet(P);
    assert x !in ToSet(lists[v]);
    assert x !in lists[v];
  }

  lemma WithoutRepeatsShort(lists: Lists, g: Adjacency)
    requires NoRepeats(lists) && g == (map v | v in lists :: ToSet(lists[v])) && Narrow(g)
    ensures Short(lists)
  {
    hide ToSet, NoDups;
    FifteenFit();
    hide Pow2;
    forall v | v in lists ensures |ToSet(lists[v])| == |lists[v]| <= 15 {
      NoDupsSize(lists[v]);
      assert |g[v]| <= 15;
    }
  }

  lemma NothingInside(h: Adjacency, P: seq<Vertex>)
    ensures InsideP(map[], h, P, 0) && ToSet(P[..0]) == {}
  {
  }

  lemma StepInP(lists: Lists, h: Adjacency, P: seq<Vertex>, i: nat)
    requires i < |P| && NoDups(P) && P[i] in h && InsideP(lists, h, P, i)
    ensures P[i] !in lists && InsideP(lists[P[i] := Filter(P, h[P[i]], true)], h, P, i + 1)
  {
    hide ToSet, NoDups, Filter;
    FilterIsSetOperation(P, h[P[i]], true);
    PrefixSet(P, i);
  }

  lemma StartX(lists: Lists, h: Adjacency, P: seq<Vertex>)
    requires InsideP(lists, h, P, |P|)
    ensures WithX(lists, h, P, {})
  {
    assert P[..|P|] == P;
    forall v | v in P ensures v in lists && AdjacentIn(h, {}, v) == {} {
      assert v in ToSet(P);
    }
  }

  lemma StartPartOf(lists: Lists, h: Adjacency, P: seq<Vertex>, Xs: set<Vertex>, x: Vertex)
    requires WithX(lists, h, P, Xs) && x !in P && x !in Xs && x in h
    ensures x !in lists && WithPartOf(lists[x := Filter(P, h[x], true)], h, P, Xs, x, [])
  {
    FilterIsSetOperation(P, h[x], true);
  }

  lemma StepPartOf(lists: Lists, h: Adjacency, P: seq<Vertex>, Xs: set<Vertex>, x: Vertex, D: seq<Vertex>, v: Vertex)
    requires WithPartOf(lists, h, P, Xs, x, D) && v in P
    ensures v in lists && WithPartOf(lists[v := lists[v] + [x]], h, P, Xs, x, D + [v])
  {
    assert v in ToSet(P);
    assert ToSet(lists[v] + [x]) == ToSet(lists[v]) + {x};
    var lists' := lists[v := lists[v] + [x]];
    hide ToSet, AdjacentIn;
    forall u | u in P
      ensures ToSet(lists'[u]) == h[u] * ToSet(P) + AdjacentIn(h, Xs, u) + if u in D + [v] then {x} else {}
    {
      assert u in D + [v] <==> u in D || u == v;
    }
  }

  lemma EndPartOf(lists: Lists, h: Adjacency, P: seq<Vertex>, Xs: set<Vertex>, x: Vertex)
    requires x in h && WithPartOf(lists, h, P, Xs, x, Filter(P, h[x], true))
    ensures WithX(lists, h, P, Xs + {x})
  {
    var D := Filter(P, h[x], true);
    FilterIsSetOperation(P, h[x], true);
    forall v | v in P ensures ToSet(lists[v]) == h[v] * ToSet(P) + AdjacentIn(h, Xs + {x}, v) {
      assert v in D <==> v in ToSet(D);
      assert AdjacentIn(h, Xs + {x}, v) == AdjacentIn(h, Xs, v) + if v in D then {x} else {};
    }
  }

  lemma EndX(lists: Lists, h: Adjacency, P: seq<Vertex>, X: seq<Vertex>)
    requires WithX(lists, h, P, ToSet(X)) && ToSet(P) + ToSet(X) <= h.Keys && ToSet(P) !! ToSet(X)
    ensures (map v | v in lists :: ToSet(lists[v])) == Pruned(h, ToSet(P), ToSet(X))
  {
    assert forall v :: v in P <==> v in ToSet(P);
    assert forall v :: v in X <==> v in ToSet(X);
  }
}
