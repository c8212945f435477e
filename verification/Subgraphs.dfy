/**
 Searching a pruned graph instead of the full one. The pruned graph of a branch keeps the edges
 inside P and between P and X, and drops those between two vertices of X.
 */
module Subgraphs {
  import opened FiniteSets
  import opened Cliques

  /** As far as a branch (P, X) and everything below it can tell, h is g. */
  ghost predicate Serves(h: Adjacency, g: Adjacency, P: set<Vertex>, X: set<Vertex>) {
    && (forall v :: v in P ==> v in h && v in g && h[v] * (P + X) == g[v] * (P + X))
    && (forall x :: x in X ==> x in h && x in g && h[x] * P == g[x] * P)
  }

  lemma ServesItself(g: Adjacency, P: set<Vertex>, X: set<Vertex>)
    requires P + X <= g.Keys
    ensures Serves(g, g, P, X)
  {
    assert forall v :: v in P || v in X ==> v in P + X;
  }

  /** Every set the search computes through h is the one it would compute through g. */
  lemma SameAnswers(h: Adjacency, g: Adjacency, P: set<Vertex>, X: set<Vertex>, u: Vertex)
    requires Serves(h, g, P, X) && u in P + X
    ensures u in h && u in g && P * h[u] == P * g[u] && P - h[u] == P - g[u]
    ensures u in P ==> X * h[u] == X * g[u]
  {
    if u in P {
      forall w | w in P + X ensures w in h[u] <==> w in g[u] {
        assert w in h[u] * (P + X) <==> w in g[u] * (P + X);
      }
    } else {
      forall w | w in P ensures w in h[u] <==> w in g[u] {
        assert w in h[u] * P <==> w in g[u] * P;
      }
    }
  }

  /** A graph that serves a branch serves its descendants, also after vertices have moved from P to X. */
  lemma ServesBelow(h: Adjacency, g: Adjacency, P: set<Vertex>, X: set<Vertex>, P': set<Vertex>, X': set<Vertex>)
    requires Serves(h, g, P, X) && P' <= P && X' <= P + X
    ensures Serves(h, g, P', X')
  {
    forall v | v in P' ensures v in h && v in g && h[v] * (P' + X') == g[v] * (P' + X') {
      forall w | w in P' + X' ensures w in h[v] <==> w in g[v] {
        assert w in h[v] * (P + X) <==> w in g[v] * (P + X);
      }
    }
    forall x | x in X' ensures x in h && x in g && h[x] * P' == g[x] * P' {
      SameAnswers(h, g, P, X, x);
      forall w | w in P' ensures w in h[x] <==> w in g[x] {
        assert w in P * h[x] <==> w in P * g[x];
      }
    }
  }

  /** The subgraph of (P, X) inside h: P-P and P-X edges, no X-X edges. */
  ghost function Pruned(h: Adjacency, P: set<Vertex>, X: set<Vertex>): Adjacency
    requires P + X <= h.Keys
  {
    map v | v in P + X :: if v in P then h[v] * P + AdjacentIn(h, X, v) else h[v] * P
  }

  /** The vertices of X that have v as a neighbour. */
  ghost function AdjacentIn(h: Adjacency, X: set<Vertex>, v: Vertex): set<Vertex> {
    set x | x in X && x in h && v in h[x]
  }

  /** Pruning is invisible, also when h is itself a pruned subgraph of g. */
  lemma PrunedServes(h: Adjacency, g: Adjacency, P: set<Vertex>, X: set<Vertex>)
    requires Simple(g) && P !! X && Serves(h, g, P, X)
    ensures P + X <= h.Keys && Serves(Pruned(h, P, X), g, P, X)
  {
    assert P + X <= h.Keys;
    var p := Pruned(h, P, X);
    forall v | v in P ensures p[v] * (P + X) == g[v] * (P + X) {
      forall w ensures w in p[v] * (P + X) <==> w in g[v] * (P + X) {
        PrunedEdge(h, g, P, X, v, w);
      }
    }
    forall x | x in X ensures p[x] * P == g[x] * P {
      assert p[x] == h[x] * P;
    }
  }

  /** It has all edges of g between P and P or X, and none inside X. */
  lemma PrunedEdges(h: Adjacency, g: Adjacency, P: set<Vertex>, X: set<Vertex>)
    requires Simple(g) && P !! X && Serves(h, g, P, X)
    ensures P + X <= h.Keys && Pruned(h, P, X).Keys == P + X
    ensures forall v :: v in P ==> Pruned(h, P, X)[v] == g[v] * (P + X)
    ensures forall x :: x in X ==> Pruned(h, P, X)[x] == g[x] * P
  {
    PrunedServes(h, g, P, X);
    var p := Pruned(h, P, X);
    forall v | v in P ensures p[v] == g[v] * (P + X) {
      assert p[v] == p[v] * (P + X);
    }
    forall x | x in X ensures p[x] == g[x] * P {
      assert p[x] == p[x] * P;
    }
  }

  /** A pruned subgraph has no more neighbours than the whole graph. */
  lemma PrunedNarrow(h: Adjacency, g: Adjacency, P: set<Vertex>, X: set<Vertex>)
    requires Simple(g) && P !! X && Serves(h, g, P, X) && P + X <= h.Keys && Narrow(g)
    ensures Narrow(Pruned(h, P, X))
  {
    var p := Pruned(h, P, X);
    forall v | v in p ensures |p[v]| <= 15 {
      SameAnswers(h, g, P, X, v);
      assert v in g;
      if v in P {
        forall w | w in p[v] ensures w in g[v] {
          PrunedEdge(h, g, P, X, v, w);
        }
      }
      SubsetSize(p[v], g[v]);
    }
  }

  lemma PrunedEdge(h: Adjacency, g: Adjacency, P: set<Vertex>, X: set<Vertex>, v: Vertex, w: Vertex)
    requires Simple(g) && P !! X && Serves(h, g, P, X) && v in P && P + X <= h.Keys
    ensures w in Pruned(h, P, X)[v] * (P + X) <==> w in g[v] * (P + X)
  {
    if w in P {
      assert w in h[v] * (P + X) <==> w in g[v] * (P + X);
    } else if w in X {
      assert v in h[w] * P <==> v in g[w] * P;
    }
  }
}
