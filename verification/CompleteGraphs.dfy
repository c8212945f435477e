/** Graphs in which every two vertices are adjacent: the inputs on which the worst happens. */
module CompleteGraphs {
  import opened Cliques

  function Complete(V: set<Vertex>): Adjacency {
    map v | v in V :: V - {v}
  }

  function Numbers(n: nat): (S: set<Vertex>)
    requires n <= 0x8000_0000
    ensures |S| == n && forall v :: v in S <==> 0 <= v < n
  {
    if n == 0 then {} else
      var v: Vertex := n - 1;
      Numbers(n - 1) + {v}
  }

  lemma CompleteIsClique(V: set<Vertex>)
    ensures Simple(Complete(V)) && IsClique(Complete(V), V)
  {
  }
}
