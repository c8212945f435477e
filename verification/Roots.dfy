/**
 The root tasks: one per vertex v, with P the neighbours after v and X those before it. Whatever
 the order, every maximal clique is rooted at its least vertex and nowhere else.
 */
module Roots {
  import opened FiniteSets
  import opened Cliques

  /** `--ord`: 0 compares positions in the degeneracy ordering, 1 and 2 compare degrees. */
  datatype Order = ByPosition(pos: map<Vertex, nat>) | ByDegree | ByInverseDegree

  ghost predicate ValidOrder(g: Adjacency, ord: Order) {
    ord.ByPosition? ==>
      && g.Keys <= ord.pos.Keys
      && forall v, w :: v in g && w in g && v != w ==> ord.pos[v] != ord.pos[w]
  }

  /** The neighbour w goes into the P of the root v. */
  predicate Before(g: Adjacency, ord: Order, v: Vertex, w: Vertex)
    requires v in g && w in g && (ord.ByPosition? ==> v in ord.pos && w in ord.pos)
  {
    match ord
    case ByPosition(pos) => pos[w] > pos[v]
    case ByDegree => |g[w]| > |g[v]| || (|g[w]| == |g[v]| && w > v)
    case ByInverseDegree => |g[w]| < |g[v]| || (|g[w]| == |g[v]| && w > v)
  }

  ghost function Later(g: Adjacency, ord: Order, v: Vertex): set<Vertex>
    requires Simple(g) && ValidOrder(g, ord) && v in g
  {
    set w | w in g[v] && Before(g, ord, v, w)
  }

  ghost function Earlier(g: Adjacency, ord: Order, v: Vertex): set<Vertex>
    requires Simple(g) && ValidOrder(g, ord) && v in g
  {
    g[v] - Later(g, ord, v)
  }

  /** Every vertex has at most d later neighbours. */
  ghost predicate LaterAtMost(g: Adjacency, ord: Order, d: nat)
    requires Simple(g) && ValidOrder(g, ord)
  {
    forall v :: v in g ==> |Later(g, ord, v)| <= d
  }

  /** w has at least as many neighbours as v, and among vertices of the same degree the larger number. */
  ghost predicate Ascending(g: Adjacency, v: Vertex, w: Vertex)
    requires v in g && w in g
  {
    |g[v]| <= |g[w]| && (|g[v]| == |g[w]| ==> v < w)
  }

  /** w has at most as many neighbours as v, and among vertices of the same degree still the larger number. */
  ghost predicate Descending(g: Adjacency, v: Vertex, w: Vertex)
    requires v in g && w in g
  {
    |g[v]| >= |g[w]| && (|g[v]| == |g[w]| ==> v < w)
  }

  ghost predicate Rising(g: Adjacency, v: Vertex, after: set<Vertex>, before: set<Vertex>)
    requires v in g && after + before <= g.Keys
  {
    && (forall w :: w in after ==> Ascending(g, v, w))
    && forall w :: w in before ==> Ascending(g, w, v)
  }

  ghost predicate Falling(g: Adjacency, v: Vertex, after: set<Vertex>, before: set<Vertex>)
    requires v in g && after + before <= g.Keys
  {
    && (forall w :: w in after ==> Descending(g, v, w))
    && forall w :: w in before ==> Descending(g, w, v)
  }

  /** The comparison of two vertices, by positions or degrees. */
  lemma BeforeMeans(g: Adjacency, ord: Order, v: Vertex, w: Vertex)
    requires v in g && w in g && v != w && ValidOrder(g, ord)
    ensures Before(g, ord, v, w) != Before(g, ord, w, v)
    ensures ord.ByPosition? && Before(g, ord, v, w) ==> ord.pos[v] < ord.pos[w]
    ensures ord.ByDegree? && Before(g, ord, v, w) ==> Ascending(g, v, w)
    ensures ord.ByInverseDegree? && Before(g, ord, v, w) ==> Descending(g, v, w)
  {
  }

  /** The neighbours of a vertex, those after it and those before it, by positions or degrees. */
  lemma OrderMeans(g: Adjacency, ord: Order, v: Vertex)
    requires Simple(g) && ValidOrder(g, ord) && v in g
    ensures Later(g, ord, v) + Earlier(g, ord, v) == g[v] <= g.Keys
    ensures ord.ByPosition? ==>
        && (forall w :: w in Later(g, ord, v) ==> ord.pos[v] < ord.pos[w])
        && forall w :: w in Earlier(g, ord, v) ==> ord.pos[w] < ord.pos[v]
    ensures ord.ByDegree? ==> Rising(g, v, Later(g, ord, v), Earlier(g, ord, v))
    ensures ord.ByInverseDegree? ==> Falling(g, v, Later(g, ord, v), Earlier(g, ord, v))
  {
    assert v !in g[v] && g[v] <= g.Keys;
    forall w | w in g[v]
      ensures w in Later(g, ord, v) <==> Before(g, ord, v, w)
      ensures w in Earlier(g, ord, v) <==> Before(g, ord, w, v)
    {
      BeforeMeans(g, ord, v, w);
    }
    assert Later(g, ord, v) + Earlier(g, ord, v) == g[v];
    hide Later, Earlier;
    forall w | w in g[v]
      ensures ord.ByPosition? ==> if Before(g, ord, v, w) then ord.pos[v] < ord.pos[w] else ord.pos[w] < ord.pos[v]
      ensures ord.ByDegree? ==> if Before(g, ord, v, w) then Ascending(g, v, w) else Ascending(g, w, v)
      ensures ord.ByInverseDegree? ==> if Before(g, ord, v, w) then Descending(g, v, w) else Descending(g, w, v)
    {
      BeforeMeans(g, ord, v, w);
      BeforeMeans(g, ord, w, v);
    }
    hide Before, Ascending, Descending;
  }

  // --- the degree order ---

  /** The sum of the degrees of S. */
  ghost function DegreeSum(g: Adjacency, S: set<Vertex>): nat
    requires S <= g.Keys
    decreases S
  {
    if S == {} then 0 else
      var v :| v in S;
      |g[v]| + DegreeSum(g, S - {v})
  }

  lemma {:induction false} DegreeSumSplits(g: Adjacency, S: set<Vertex>, v: Vertex)
    requires S <= g.Keys && v in S
    ensures DegreeSum(g, S) == |g[v]| + DegreeSum(g, S - {v})
    decreases S
  {
    var c :| c in S && DegreeSum(g, S) == |g[c]| + DegreeSum(g, S - {c});
    if c != v {
      DegreeSumSplits(g, S - {c}, v);
      DegreeSumSplits(g, S - {v}, c);
      assert S - {c} - {v} == S - {v} - {c};
    }
  }

  lemma {:induction false} DegreeSumAtLeast(g: Adjacency, S: set<Vertex>, T: set<Vertex>, d: nat)
    requires T <= S <= g.Keys && forall v :: v in T ==> |g[v]| >= d
    ensures |T| * d <= DegreeSum(g, S)
    decreases T
  {
    if v :| v in T {
      DegreeSumAtLeast(g, S - {v}, T - {v}, d);
      DegreeSumSplits(g, S, v);
      NextMultiple(|T - {v}|, d);
    } else {
      assert T == {};
    }
  }

  lemma NextMultiple(n: nat, d: nat)
    ensures (n + 1) * d == n * d + d
  {
  }

  /** In the degree order no vertex has more later neighbours than the square root of the sum of all degrees. */
  lemma FewLaterByDegree(g: Adjacency, v: Vertex)
    requires Simple(g) && v in g
    ensures |Later(g, ByDegree, v)| * |Later(g, ByDegree, v)| <= DegreeSum(g, g.Keys)
  {
    var L := Later(g, ByDegree, v);
    OrderMeans(g, ByDegree, v);
    SubsetSize(L, g[v]);
    DegreeSumAtLeast(g, g.Keys, L, |L|);
  }

  lemma RootIsBranch(g: Adjacency, limit: int, ord: Order, v: Vertex)
    requires Simple(g) && ValidOrder(g, ord) && v in g
    ensures Branch(g, limit, {v}, Later(g, ord, v), Earlier(g, ord, v))
  {
    assert Common(g, {v}) == g[v] by {
      forall w ensures w in Common(g, {v}) <==> w in g[v] {
        if w in g && w != v {
          assert {v} <= g[w] <==> v in g[w];
        }
      }
    }
    assert Later(g, ord, v) + Earlier(g, ord, v) == g[v];
  }

  ghost predicate IsLeast(g: Adjacency, ord: Order, v: Vertex, C: set<Vertex>)
    requires Simple(g) && ValidOrder(g, ord) && C <= g.Keys
  {
    v in C && forall w :: w in C && w != v ==> Before(g, ord, v, w)
  }

  /** Each order is strict and total, so every non-empty clique has a least vertex. */
  lemma {:induction false} LeastExists(g: Adjacency, ord: Order, C: set<Vertex>) returns (v: Vertex)
    requires Simple(g) && ValidOrder(g, ord) && C <= g.Keys && C != {}
    ensures IsLeast(g, ord, v, C)
    decreases C
  {
    var c :| c in C;
    if C == {c} {
      v := c;
    } else {
      assert C - {c} != {};
      var u := LeastExists(g, ord, C - {c});
      v := if Before(g, ord, c, u) then c else u;
      forall w | w in C && w != v ensures Before(g, ord, v, w) {
        if w != c && w != u {
          assert w in C - {c};
          assert Before(g, ord, u, w);
        }
      }
    }
  }

  /** A maximal clique belongs to the root branch of v exactly when v is its least vertex. */
  lemma RootedAtLeast(g: Adjacency, limit: int, ord: Order, v: Vertex, C: set<Vertex>)
    requires Simple(g) && ValidOrder(g, ord) && v in g && C in AllMaximal(g, limit)
    ensures C in Below(g, limit, {v}, Later(g, ord, v)) <==> IsLeast(g, ord, v, C)
  {
    assert IsClique(g, C);
    assert {v} <= C <= {v} + Later(g, ord, v) <==> IsLeast(g, ord, v, C) by {
      assert v in C ==> forall w :: w in C && w != v ==> w in g[v];
    }
  }

  ghost function RootedIn(g: Adjacency, limit: int, ord: Order, S: set<Vertex>): Family
    requires Simple(g) && ValidOrder(g, ord)
  {
    set C | C in AllMaximal(g, limit) && exists v :: v in S && v in C && IsLeast(g, ord, v, C)
  }

  /** Adding one root adds exactly the cliques whose least vertex it is. */
  lemma OneMoreRoot(g: Adjacency, limit: int, ord: Order, S: set<Vertex>, v: Vertex)
    requires Simple(g) && ValidOrder(g, ord) && S <= g.Keys && v in g && v !in S
    ensures RootedIn(g, limit, ord, S + {v}) == RootedIn(g, limit, ord, S) + Below(g, limit, {v}, Later(g, ord, v))
    ensures RootedIn(g, limit, ord, S) !! Below(g, limit, {v}, Later(g, ord, v))
  {
    var old_, new_, here := RootedIn(g, limit, ord, S), RootedIn(g, limit, ord, S + {v}),
        Below(g, limit, {v}, Later(g, ord, v));
    forall C
      ensures C in new_ <==> C in old_ || C in here
      ensures !(C in old_ && C in here)
    {
      OneCliqueOneRoot(g, limit, ord, S, v, C);
    }
  }

  lemma OneCliqueOneRoot(g: Adjacency, limit: int, ord: Order, S: set<Vertex>, v: Vertex, C: set<Vertex>)
    requires Simple(g) && ValidOrder(g, ord) && S <= g.Keys && v in g && v !in S
    ensures C in RootedIn(g, limit, ord, S + {v}) <==>
            C in RootedIn(g, limit, ord, S) || C in Below(g, limit, {v}, Later(g, ord, v))
    ensures !(C in RootedIn(g, limit, ord, S) && C in Below(g, limit, {v}, Later(g, ord, v)))
  {
    if C in AllMaximal(g, limit) {
      RootedAtLeast(g, limit, ord, v, C);
    }
  }

  /** All roots together are responsible for all maximal cliques. */
  lemma AllRooted(g: Adjacency, limit: int, ord: Order)
    requires Simple(g) && ValidOrder(g, ord)
    ensures RootedIn(g, limit, ord, g.Keys) == AllMaximal(g, limit)
  {
    forall C | C in AllMaximal(g, limit) ensures C in RootedIn(g, limit, ord, g.Keys) {
      var v := LeastExists(g, ord, C);
    }
  }
}
