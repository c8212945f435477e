/**
 The degeneracy of a graph on values: removing a vertex of least degree again and again, with the
 unremoved vertices sorted into buckets by their current degree.
 */
module Degeneracy {
  import opened FiniteSets
  import opened Cliques
  import opened Roots

  /** The degree of n among the unremoved vertices U. */
  ghost function DegreeIn(g: Adjacency, U: set<Vertex>, n: Vertex): nat {
    if n in g then |g[n] * U| else 0
  }

  type Buckets = seq<set<Vertex>>
  type Degrees = map<Vertex, nat>

  /** The recorded degree of n while v, already removed from U, has been struck off the neighbours in D only. */
  ghost function Recorded(g: Adjacency, U: set<Vertex>, v: Vertex, D: set<Vertex>, n: Vertex): nat {
    DegreeIn(g, U, n) + if v in g && n in g[v] && n !in D then 1 else 0
  }

  /** Each unremoved vertex sits in the bucket of its recorded degree, and in no other. */
  ghost predicate Sorted(buckets: Buckets, degrees: Degrees, U: set<Vertex>) {
    && (forall n :: n in degrees ==> degrees[n] < |buckets|)
    && (forall n :: n in U ==> n in degrees && n in buckets[degrees[n]])
    && (forall i, n :: 0 <= i < |buckets| && n in buckets[i] ==> n in U && n in degrees && degrees[n] == i)
  }

  lemma BucketsSorted(buckets: Buckets, degrees: Degrees)
    requires forall n :: n in degrees ==> degrees[n] < |buckets|
    requires forall i, n :: 0 <= i < |buckets| ==> (n in buckets[i] <==> n in degrees && degrees[n] == i)
    ensures Sorted(buckets, degrees, degrees.Keys)
  {
  }

  /** Between two neighbours of v. */
  ghost predicate Striking(buckets: Buckets, degrees: Degrees, g: Adjacency, U: set<Vertex>, v: Vertex,
        D: set<Vertex>) {
    && Sorted(buckets, degrees, U) && U <= g.Keys && degrees.Keys == g.Keys
    && forall n :: n in U ==> degrees[n] == Recorded(g, U, v, D, n)
  }

  /** Between two removals. */
  ghost predicate Exact(buckets: Buckets, degrees: Degrees, g: Adjacency, U: set<Vertex>) {
    && Sorted(buckets, degrees, U) && U <= g.Keys && degrees.Keys == g.Keys
    && forall n :: n in U ==> degrees[n] == DegreeIn(g, U, n)
  }

  lemma ExactInGraph(buckets: Buckets, degrees: Degrees, g: Adjacency, U: set<Vertex>)
    requires Exact(buckets, degrees, g, U)
    ensures U <= g.Keys
  {
  }

  lemma AllExact(buckets: Buckets, degrees: Degrees, g: Adjacency)
    requires Simple(g) && Sorted(buckets, degrees, g.Keys) && degrees.Keys == g.Keys
    requires forall n :: n in g ==> degrees[n] == |g[n]|
    ensures Exact(buckets, degrees, g, g.Keys)
  {
    hide Sorted;
    forall n | n in g ensures DegreeIn(g, g.Keys, n) == |g[n]| {
      assert g[n] * g.Keys == g[n];
    }
    hide DegreeIn;
  }

  lemma DegreeAfterRemoval(g: Adjacency, U: set<Vertex>, v: Vertex, n: Vertex)
    requires Simple(g) && v in U && U <= g.Keys && n in U && n != v
    ensures DegreeIn(g, U, n) == Recorded(g, U - {v}, v, {}, n)
  {
    if v in g[n] {
      assert g[n] * U == g[n] * (U - {v}) + {v};
    } else {
      assert g[n] * U == g[n] * (U - {v});
    }
  }

  /** Taking v out of its bucket. */
  lemma StartStriking(buckets: Buckets, degrees: Degrees, g: Adjacency, U: set<Vertex>, i: nat, v: Vertex)
    requires Simple(g) && Exact(buckets, degrees, g, U) && i < |buckets| && v in buckets[i]
    ensures v in U && DegreeIn(g, U, v) == i
    ensures Striking(buckets[i := buckets[i] - {v}], degrees, g, U - {v}, v, {})
  {
    hide DegreeIn, Recorded;
    forall n | n in U - {v} ensures degrees[n] == Recorded(g, U - {v}, v, {}, n) {
      DegreeAfterRemoval(g, U, v, n);
    }
  }

  /** Striking v off one neighbour: an unremoved one moves down a bucket, so it never was in bucket 0. */
  lemma StrikeOne(buckets: Buckets, degrees: Degrees, g: Adjacency, U: set<Vertex>, v: Vertex, D: set<Vertex>,
        n: Vertex)
    requires Simple(g) && v in g && Striking(buckets, degrees, g, U, v, D) && n in g[v] && n !in D
    ensures n in degrees && degrees[n] < |buckets|
    ensures var d := degrees[n];
            if n in buckets[d] then
              d != 0 &&
                  Striking(buckets[d := buckets[d] - {n}][d - 1 := buckets[d - 1] + {n}], degrees[n := d - 1], g, U, v,
                      D + {n})
            else Striking(buckets, degrees, g, U, v, D + {n})
  {
    hide DegreeIn;
    assert n in g;
  }

  lemma EndStriking(buckets: Buckets, degrees: Degrees, g: Adjacency, U: set<Vertex>, v: Vertex)
    requires v in g && Striking(buckets, degrees, g, U, v, g[v])
    ensures Exact(buckets, degrees, g, U)
  {
    hide DegreeIn;
  }

  /** The first non-empty bucket holds the vertices of least degree. */
  lemma FirstBucketIsLeast(buckets: Buckets, degrees: Degrees, g: Adjacency, U: set<Vertex>, i: nat)
    requires Exact(buckets, degrees, g, U) && i <= |buckets| && forall j :: 0 <= j < i ==> buckets[j] == {}
    ensures forall n :: n in U ==> DegreeIn(g, U, n) >= i
    ensures U != {} ==> i < |buckets|
  {
    hide DegreeIn;
    if U != {} {
      var n :| n in U;
      assert n in buckets[degrees[n]];
    }
  }

  lemma NotAllEmpty(buckets: Buckets, degrees: Degrees, g: Adjacency, U: set<Vertex>)
    requires Exact(buckets, degrees, g, U) && U != {}
    ensures exists i, n :: 0 <= i < |buckets| && n in buckets[i]
  {
    var n :| n in U;
    assert n in buckets[degrees[n]];
  }

  // --- optimality ---

  /** A non-empty set in which every vertex has at least d neighbours. */
  ghost predicate Core(g: Adjacency, S: set<Vertex>, d: nat) {
    S != {} && S <= g.Keys && forall n :: n in S ==> DegreeIn(g, S, n) >= d
  }

  /** In any order, the least vertex of a core has at least d later neighbours. */
  lemma CoreForcesLater(g: Adjacency, S: set<Vertex>, d: nat, ord: Order)
    requires Simple(g) && ValidOrder(g, ord) && Core(g, S, d)
    ensures exists v :: v in g && |Later(g, ord, v)| >= d
  {
    var v := LeastExists(g, ord, S);
    assert g[v] * S <= Later(g, ord, v);
    SubsetSize(g[v] * S, Later(g, ord, v));
    assert DegreeIn(g, S, v) >= d;
  }

  /** The first i vertices of the ordering, in positions 0 to i - 1. */
  ghost predicate Positioned(order: seq<Vertex>, pos: map<Vertex, nat>, i: nat) {
    i <= |order| && forall k :: 0 <= k < i ==> order[k] in pos && pos[order[k]] == k
  }

  lemma PositionsAreOrder(g: Adjacency, order: seq<Vertex>, pos: map<Vertex, nat>)
    requires Enumerates(order, g.Keys) && Positioned(order, pos, |order|)
    ensures ValidOrder(g, ByPosition(pos))
  {
    forall v | v in g ensures v in pos && pos[v] < |order| && order[pos[v]] == v {
      var k :| 0 <= k < |order| && order[k] == v;
    }
  }

  /** With order[i] placed and U the vertices not placed before it, its later neighbours are those in U. */
  lemma LaterAreUnremoved(g: Adjacency, order: seq<Vertex>, pos: map<Vertex, nat>, i: nat)
    requires Simple(g) && Enumerates(order, g.Keys) && Positioned(order, pos, |order|) && i < |order|
    requires ValidOrder(g, ByPosition(pos))
    ensures Later(g, ByPosition(pos), order[i]) == g[order[i]] * (g.Keys - ToSet(order[..i]))
  {
    var v := order[i];
    assert v in g;
    forall w | w in g[v] ensures pos[w] > i <==> w !in order[..i] {
      assert w in g;
      var k :| 0 <= k < |order| && order[k] == w;
      if k < i {
        assert order[..i][k] == w;
      }
    }
  }

  /** The degeneracy of an ordering: the largest number of unremoved neighbours met at a removal. */
  ghost predicate AtMostLater(g: Adjacency, order: seq<Vertex>, n: nat, d: nat)
    requires n <= |order|
  {
    forall i :: 0 <= i < n ==> DegreeIn(g, g.Keys - ToSet(order[..i]), order[i]) <= d
  }

  lemma OrderingBound(g: Adjacency, order: seq<Vertex>, pos: map<Vertex, nat>, d: nat)
    requires Simple(g) && Enumerates(order, g.Keys) && Positioned(order, pos, |order|)
    requires AtMostLater(g, order, |order|, d)
    ensures ValidOrder(g, ByPosition(pos)) && LaterAtMost(g, ByPosition(pos), d)
  {
    PositionsAreOrder(g, order, pos);
    forall v | v in g ensures |Later(g, ByPosition(pos), v)| <= d {
      var i :| 0 <= i < |order| && order[i] == v;
      LaterAreUnremoved(g, order, pos, i);
    }
  }

  /** Each of the first n vertices has the least degree among those that come no earlier. */
  ghost predicate LeastFirst(g: Adjacency, order: seq<Vertex>, n: nat)
    requires n <= |order|
  {
    forall i, w :: 0 <= i < n && w in Unremoved(g, order, i) ==>
        DegreeIn(g, Unremoved(g, order, i), w) >= DegreeIn(g, Unremoved(g, order, i), order[i])
  }

  // --- the ordering under construction ---

  ghost function Unremoved(g: Adjacency, order: seq<Vertex>, k: nat): set<Vertex>
    requires k <= |order|
  {
    g.Keys - ToSet(order[..k])
  }

  /** k vertices are placed, d is the largest bucket index so far, and the core S is why it could not be less. */
  ghost predicate PlacedSoFar(g: Adjacency, order: seq<Vertex>, pos: map<Vertex, nat>, k: nat, d: nat, S: set<Vertex>) {
    && k <= |order| && NoDups(order[..k]) && ToSet(order[..k]) <= g.Keys
    && Positioned(order, pos, k) && AtMostLater(g, order, k, d) && LeastFirst(g, order, k)
    && if k == 0 then d == 0 else Core(g, S, d)
  }

  ghost function NextCore(g: Adjacency, order: seq<Vertex>, k: nat, d: nat, S: set<Vertex>, i: nat): set<Vertex>
    requires k <= |order|
  {
    if k == 0 || i > d then Unremoved(g, order, k) else S
  }

  lemma PlaceOne(g: Adjacency, order: seq<Vertex>, pos: map<Vertex, nat>, k: nat, d: nat, S: set<Vertex>, v: Vertex,
        i: nat)
    requires PlacedSoFar(g, order, pos, k, d, S) && k < |order|
    requires v in Unremoved(g, order, k) && DegreeIn(g, Unremoved(g, order, k), v) == i
    requires forall n :: n in Unremoved(g, order, k) ==> DegreeIn(g, Unremoved(g, order, k), n) >= i
    ensures PlacedSoFar(g, order[k := v], pos[v := k], k + 1, if i > d then i else d, NextCore(g, order, k, d, S, i))
    ensures Unremoved(g, order[k := v], k + 1) == Unremoved(g, order, k) - {v}
  {
    hide DegreeIn, LeastFirst;
    var order' := order[k := v];
    assert order'[..k] == order[..k];
    PrefixSet(order', k);
    forall j | 0 <= j <= k ensures order'[..j] == order[..j] {
    }
    LeastSoFar(g, order, k, v);
  }

  lemma LeastSoFar(g: Adjacency, order: seq<Vertex>, k: nat, v: Vertex)
    requires k < |order| && LeastFirst(g, order, k)
    requires forall n :: n in Unremoved(g, order, k) ==>
        DegreeIn(g, Unremoved(g, order, k), n) >= DegreeIn(g, Unremoved(g, order, k), v)
    ensures LeastFirst(g, order[k := v], k + 1)
  {
    hide DegreeIn;
    var order' := order[k := v];
    forall j | 0 <= j <= k ensures Unremoved(g, order', j) == Unremoved(g, order, j) {
      assert order'[..j] == order[..j];
    }
    hide Unremoved;
  }

  lemma NothingPlaced(g: Adjacency, order: seq<Vertex>, pos: map<Vertex, nat>)
    ensures PlacedSoFar(g, order, pos, 0, 0, {}) && Unremoved(g, order, 0) == g.Keys
  {
  }

  lemma SomethingLeft(g: Adjacency, order: seq<Vertex>, pos: map<Vertex, nat>, k: nat, d: nat, S: set<Vertex>)
    requires PlacedSoFar(g, order, pos, k, d, S) && k < |order| == |g.Keys|
    ensures Unremoved(g, order, k) != {}
  {
    NoDupsSize(order[..k]);
    if Unremoved(g, order, k) == {} {
      SubsetSize(g.Keys, ToSet(order[..k]));
    }
  }

  /** No order of the vertices does better than the core allows. */
  ghost predicate NoOrderBelow(g: Adjacency, d: nat)
    requires Simple(g)
  {
    forall ord | ValidOrder(g, ord) :: exists v :: v in g && |Later(g, ord, v)| >= d
  }

  lemma CoreIsOptimal(g: Adjacency, S: set<Vertex>, d: nat)
    requires Simple(g) && Core(g, S, d)
    ensures NoOrderBelow(g, d)
  {
    hide Later, ValidOrder, Core;
    forall ord | ValidOrder(g, ord) ensures exists v :: v in g && |Later(g, ord, v)| >= d {
      CoreForcesLater(g, S, d, ord);
    }
  }

  lemma AllPlaced(g: Adjacency, order: seq<Vertex>, pos: map<Vertex, nat>, d: nat, S: set<Vertex>)
    requires Simple(g) && PlacedSoFar(g, order, pos, |order|, d, S) && |order| == |g.Keys|
    ensures Enumerates(order, g.Keys) && ValidOrder(g, ByPosition(pos)) && LaterAtMost(g, ByPosition(pos), d)
    ensures Positioned(order, pos, |order|) && LeastFirst(g, order, |order|)
    ensures g != map[] ==> NoOrderBelow(g, d)
  {
    hide Later, DegreeIn, ValidOrder, LeastFirst;
    assert order[..|order|] == order;
    NoDupsSize(order);
    SubsetSize(ToSet(order), g.Keys);
    assert Enumerates(order, g.Keys) by {
      forall v | v in g.Keys ensures exists i :: 0 <= i < |order| && order[i] == v {
        assert v in ToSet(order);
      }
    }
    OrderingBound(g, order, pos, d);
    if g != map[] {
      assert |order| != 0;
      CoreIsOptimal(g, S, d);
    }
  }
}
