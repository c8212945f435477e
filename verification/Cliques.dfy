/**
 Cliques of a finite simple graph, and the families of maximal cliques that a branch of the
 Bron-Kerbosch search is responsible for. Everything here is about values; the mutable search of
 `Search.dfy` and the task pool of `TaskPool.dfy` are specified with these definitions.
 */
module Cliques {
  import opened Keys
  import opened FiniteSets

  type Vertex = Key
  type Adjacency = map<Vertex, set<Vertex>>
  type Family = set<set<Vertex>>

  /** Undirected, loop-free, and closed: every neighbour is itself a vertex. */
  ghost predicate Simple(g: Adjacency) {
    && (forall v :: v in g ==> v !in g[v])
    && (forall v, w :: v in g && w in g[v] ==> w in g && v in g[w])
  }

  /** At most fifteen neighbours each: no hash table of the run can grow, and no lookup can be misled. */
  ghost predicate Narrow(g: Adjacency) {
    forall v :: v in g ==> |g[v]| <= 15
  }

  ghost predicate IsClique(g: Adjacency, C: set<Vertex>) {
    && C <= g.Keys
    && forall v, w :: v in C && w in C && v != w ==> w in g[v]
  }

  /** The vertices that extend R: adjacent to all of it. */
  function Common(g: Adjacency, R: set<Vertex>): set<Vertex> {
    set v | v in g && v !in R && R <= g[v]
  }

  ghost predicate IsMaximal(g: Adjacency, C: set<Vertex>) {
    C != {} && IsClique(g, C) && Common(g, C) == {}
  }

  lemma ExtensibleIsNotMaximal(g: Adjacency, C: set<Vertex>, v: Vertex)
    requires v in g && v !in C && C <= g[v]
    ensures !IsMaximal(g, C)
  {
    assert v in Common(g, C);
  }

  /** "No vertex extends C" is the usual maximality: no clique strictly contains C. */
  lemma MaximalMeansInclusionMaximal(g: Adjacency, C: set<Vertex>)
    requires Simple(g) && C != {} && IsClique(g, C)
    ensures IsMaximal(g, C) <==> forall D :: IsClique(g, D) && C <= D ==> D == C
  {
    if IsMaximal(g, C) {
      forall D | IsClique(g, D) && C <= D ensures D == C {
        if D != C {
          var v :| v in D && v !in C;
          assert C <= g[v];
          ExtensibleIsNotMaximal(g, C, v);
        }
      }
    } else {
      assert Common(g, C) != {};
      var v :| v in Common(g, C);
      var D := C + {v};
      assert IsClique(g, D) && C <= D && D != C;
    }
  }

  /**
   The size limit `--max-clq`. A negative limit never cuts, because the comparison with the
   unsigned size of R is then false; a limit of 0 acts like 1, because a root always has size 1.
   */
  predicate Within(limit: int, size: nat) {
    limit < 0 || size <= if limit < 1 then 1 else limit
  }

  predicate CutsOff(limit: int, size: nat) {
    0 <= limit <= size
  }

  /** The maximal cliques the whole run has to report. */
  ghost function AllMaximal(g: Adjacency, limit: int): Family {
    set C | C <= g.Keys && IsMaximal(g, C) && Within(limit, |C|)
  }

  /** The maximal cliques C with R <= C <= R + P: what a branch (R, P, X) has to report. */
  ghost function Below(g: Adjacency, limit: int, R: set<Vertex>, P: set<Vertex>): Family {
    set C | C <= g.Keys && IsMaximal(g, C) && Within(limit, |C|) && R <= C <= R + P
  }

  /** A branch of the search: R is a clique, and P and X split its common neighbourhood. */
  ghost predicate Branch(g: Adjacency, limit: int, R: set<Vertex>, P: set<Vertex>, X: set<Vertex>) {
    R != {} && IsClique(g, R) && P !! X && P + X == Common(g, R) && Within(limit, |R|)
  }

  lemma CommonOfExtended(g: Adjacency, R: set<Vertex>, v: Vertex)
    requires Simple(g) && v in Common(g, R)
    ensures Common(g, R + {v}) == Common(g, R) * g[v]
  {
    forall w ensures w in Common(g, R + {v}) <==> w in Common(g, R) * g[v] {
      assert R + {v} <= (if w in g then g[w] else {}) <==>
          R <= (if w in g then g[w] else {}) && v in (if w in g then g[w] else {});
    }
  }

  /** Descending on v, and later retiring v from P to X, both give branches again. */
  lemma BranchSteps(g: Adjacency, limit: int, R: set<Vertex>, P: set<Vertex>, X: set<Vertex>, v: Vertex)
    requires Simple(g) && Branch(g, limit, R, P, X) && v in P && !CutsOff(limit, |R|)
    ensures v in g && v !in g[v]
    ensures Branch(g, limit, R + {v}, P * g[v], X * g[v])
    ensures Branch(g, limit, R, P - {v}, X + {v})
    ensures |R + {v}| == |R| + 1
  {
    assert v in Common(g, R);
    CommonOfExtended(g, R, v);
    assert (P * g[v]) + (X * g[v]) == (P + X) * g[v];
  }

  lemma SplitMember(g: Adjacency, limit: int, R: set<Vertex>, P: set<Vertex>, v: Vertex, C: set<Vertex>)
    requires v in g && v in P && v !in R && R <= g[v]
    ensures C in Below(g, limit, R, P) && v in C <==> C in Below(g, limit, R + {v}, P * g[v])
    ensures C in Below(g, limit, R, P) && v !in C <==> C in Below(g, limit, R, P - {v})
  {
    if IsClique(g, C) {
      assert R <= C <= R + P && v in C <==> R + {v} <= C <= (R + {v}) + P * g[v];
    }
    assert R <= C <= R + P && v !in C <==> R <= C <= R + (P - {v});
  }

  /** Every clique of a branch contains v or it does not: the two sub-branches share nothing. */
  lemma BranchSplits(g: Adjacency, limit: int, R: set<Vertex>, P: set<Vertex>, X: set<Vertex>, v: Vertex)
    requires Simple(g) && Branch(g, limit, R, P, X) && v in P && v in g
    ensures Below(g, limit, R, P) == Below(g, limit, R + {v}, P * g[v]) + Below(g, limit, R, P - {v})
    ensures Below(g, limit, R + {v}, P * g[v]) !! Below(g, limit, R, P - {v})
  {
    hide Below;
    assert v !in R && R <= g[v] by {
      assert v in P + X;
    }
    var whole, with, without := Below(g, limit, R, P), Below(g, limit, R + {v}, P * g[v]), Below(g, limit, R, P - {v});
    forall C
      ensures C in whole && v in C <==> C in with
      ensures C in whole && v !in C <==> C in without
    {
      SplitMember(g, limit, R, P, v, C);
    }
  }

  /** Once P has shrunk into the neighbourhood of a pivot that extends R, nothing is left to find. */
  lemma PivotExhausts(g: Adjacency, limit: int, R: set<Vertex>, P: set<Vertex>, u: Vertex)
    requires Simple(g) && u in Common(g, R) && P <= g[u]
    ensures Below(g, limit, R, P) == {}
  {
    assert u !in g[u];
    forall C | C <= g.Keys && R <= C <= R + P ensures !IsMaximal(g, C) {
      ExtensibleIsNotMaximal(g, C, u);
    }
  }

  /** The empty-P case of a call: R itself is maximal exactly when X is empty too. */
  lemma LeafFamily(g: Adjacency, limit: int, R: set<Vertex>, X: set<Vertex>)
    requires Branch(g, limit, R, {}, X)
    ensures Below(g, limit, R, {}) == if X == {} then {R} else {}
  {
    assert {} + X == X;
    forall C | C in Below(g, limit, R, {}) ensures C == R {
      assert R + {} == R;
    }
    if X == {} {
      assert R in Below(g, limit, R, {});
    }
  }

  /** The cut-off loses nothing: with P non-empty, every clique of the branch is larger than R. */
  lemma CutOffFamily(g: Adjacency, limit: int, R: set<Vertex>, P: set<Vertex>, X: set<Vertex>)
    requires Branch(g, limit, R, P, X) && P != {} && CutsOff(limit, |R|)
    ensures Below(g, limit, R, P) == {}
  {
    var p :| p in P;
    assert p in P + X;
    ExtensibleIsNotMaximal(g, R, p);
    assert |R| >= 1;
    forall C | R <= C && C != R ensures !Within(limit, |C|) {
      SubsetSize(R, C);
    }
  }
}
