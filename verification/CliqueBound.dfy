/**
 How many maximal cliques a branch can hold: at most MaxLeaves(|P|), whose cube is at most 3^|P|.
 The proof is the search itself, run on values.
 */
module CliqueBound {
  import opened Cliques
  import opened LeafBound
  import opened TaskPool

  lemma PivotExists(g: Adjacency, P: set<Vertex>, X: set<Vertex>) returns (u: Vertex)
    requires P != {} && P + X <= g.Keys
    ensures BestPivot(g, P, X, u)
  {
    hide Score;
    var p :| p in P;
    assert p in P + X;
    u := Widest(g, P, P + X);
  }

  /** Any branch can be listed, each clique once, within MaxLeaves(|P|) leaf calls. */
  lemma {:induction false} ListBranch(g: Adjacency, limit: int, R: set<Vertex>, P: set<Vertex>, X: set<Vertex>)
    returns (log: seq<set<Vertex>>, leaves: nat)
    requires Simple(g) && Branch(g, limit, R, P, X)
    ensures multiset(log) == multiset(Below(g, limit, R, P)) && |log| <= leaves <= MaxLeaves(|P|)
    decreases |P|, 1
  {
    hide Below, Branch, BestPivot, HasPivot, MaxLeaves, Width;
    AtLeastOneLeaf(|P|);
    log, leaves := [], 1;
    if P == {} {
      LeafFamily(g, limit, R, X);
      log := if X == {} then [R] else [];
    } else if CutsOff(limit, |R|) {
      CutOffFamily(g, limit, R, P, X);
    } else {
      BranchInGraph(g, limit, R, P, X);
      var u := PivotExists(g, P, X);
      PivotInGraph(g, P, X, u);
      StartIsLoop(g, limit, R, P, X, u);
      var K := P - g[u];
      if K != {} {
        LoopBudget(g, P, X, u);
        log, leaves := ListLoop(g, limit, Looping(R, P, X, K));
      }
    }
  }

  lemma BranchInGraph(g: Adjacency, limit: int, R: set<Vertex>, P: set<Vertex>, X: set<Vertex>)
    requires Branch(g, limit, R, P, X)
    ensures P + X <= g.Keys && P !! X
  {
  }

  lemma PivotInGraph(g: Adjacency, P: set<Vertex>, X: set<Vertex>, u: Vertex)
    requires BestPivot(g, P, X, u)
    ensures u in g && u in P + X
  {
  }

  /** A candidate v splits what a loop has to list into its child and the rest of the loop, within the budget. */
  lemma CandidateSplits(g: Adjacency, limit: int, t: Task, v: Vertex)
    requires Simple(g) && t.Looping? && TaskOk(g, limit, t) && v in t.K
    ensures v in t.P && v in g && Branch(g, limit, t.R + {v}, t.P * g[v], t.X * g[v])
    ensures |t.P * g[v]| < |t.P| && |t.P - {v}| < |t.P|
    ensures multiset(Below(g, limit, t.R, t.P))
         == multiset(Below(g, limit, t.R + {v}, t.P * g[v])) + multiset(Below(g, limit, t.R, t.P - {v}))
    ensures t.K == {v} ==> Below(g, limit, t.R, t.P - {v}) == {}
    ensures t.K != {v} ==> TaskOk(g, limit, Looping(t.R, t.P - {v}, t.X + {v}, t.K - {v}))
  {
    hide Below, Branch, HasPivot;
    var u :| HasPivot(g, t.R, t.P, t.K, u);
    PivotSurvives(g, limit, t.R, t.P, t.K, u, v);
    BranchSteps(g, limit, t.R, t.P, t.X, v);
    BranchSplits(g, limit, t.R, t.P, t.X, v);
    DisjointUnion(Below(g, limit, t.R + {v}, t.P * g[v]), Below(g, limit, t.R, t.P - {v}));
    ChildIsSmaller(g, t.P, v);
    if t.K != {v} {
      assert t.K - {v} != {};
    }
  }

  lemma CandidateBudget(g: Adjacency, P: set<Vertex>, K: set<Vertex>, v: Vertex)
    requires v in K && v in g
    ensures MaxLeaves(|P * g[v]|) + |K - {v}| * MaxLeaves(Width(g, P - {v}, K - {v})) <= |K| * MaxLeaves(Width(g, P, K))
  {
    hide MaxLeaves, Width;
    IterationBudget(g, P, K, v);
    assert Score(g, P, v) == |P * g[v]|;
  }

  lemma {:induction false} ListLoop(g: Adjacency, limit: int, t: Task) returns (log: seq<set<Vertex>>, leaves: nat)
    requires Simple(g) && t.Looping? && TaskOk(g, limit, t)
    ensures multiset(log) == multiset(Below(g, limit, t.R, t.P))
    ensures |log| <= leaves <= |t.K| * MaxLeaves(Width(g, t.P, t.K))
    decreases |t.P|, 0
  {
    hide Below, Branch, HasPivot, MaxLeaves, Width, Simple;
    var v :| v in t.K;
    CandidateSplits(g, limit, t, v);
    CandidateBudget(g, t.P, t.K, v);
    log, leaves := ListBranch(g, limit, t.R + {v}, t.P * g[v], t.X * g[v]);
    if t.K != {v} {
      var rest, m := ListLoop(g, limit, Looping(t.R, t.P - {v}, t.X + {v}, t.K - {v}));
      log, leaves := log + rest, leaves + m;
    }
  }

  /** The cube of the number of maximal cliques of a branch is at most 3^|P|. */
  lemma CliquesOfBranch(g: Adjacency, limit: int, R: set<Vertex>, P: set<Vertex>, X: set<Vertex>)
    requires Simple(g) && Branch(g, limit, R, P, X)
    ensures Cube(|Below(g, limit, R, P)|) <= Pow3(|P|)
  {
    hide Below, Branch, MaxLeaves;
    var log, leaves := ListBranch(g, limit, R, P, X);
    assert |multiset(log)| == |multiset(Below(g, limit, R, P))|;
    MaxLeavesIsFloor(|P|, |Below(g, limit, R, P)|);
  }
}
