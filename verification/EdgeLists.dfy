/** The graph that a list of edges describes, and the adjacency lists that `addEdge` builds from it. */
module EdgeLists {
  import opened FiniteSets
  import opened Powers
  import opened Hopscotch
  import opened Cliques
  import opened AdjacencyMaps

  type Edge = (Vertex, Vertex)

  ghost predicate Joined(edges: seq<Edge>, v: Vertex, w: Vertex) {
    v != w && ((v, w) in edges || (w, v) in edges)
  }

  ghost function Endpoints(edges: seq<Edge>): set<Vertex> {
    (set e | e in edges :: e.0) + set e | e in edges :: e.1
  }

  /** Undirected, without loops, and without multiple edges; the end points of a loop stay vertices. */
  ghost function GraphOf(edges: seq<Edge>): Adjacency {
    map v | v in Endpoints(edges) :: set w | w in Endpoints(edges) && Joined(edges, v, w)
  }

  lemma GraphOfIsSimple(edges: seq<Edge>)
    ensures Simple(GraphOf(edges))
  {
  }

  function WithVertex(lists: Lists, v: Vertex): Lists {
    if v in lists then lists else lists[v := []]
  }

  /** `addEdge`: both end points become vertices; a loop adds nothing else. */
  function WithEdge(lists: Lists, v: Vertex, w: Vertex): Lists {
    var l := WithVertex(WithVertex(lists, v), w);
    if v == w then l else l[v := l[v] + [w]][w := l[w] + [v]]
  }

  /** How many edges that are not loops have v as an end point; repeated edges count again. */
  ghost function Times(edges: seq<Edge>, v: Vertex): nat {
    if edges == [] then 0 else
      var e := edges[|edges| - 1];
      Times(edges[..|edges| - 1], v) + if e.0 != e.1 && (e.0 == v || e.1 == v) then 1 else 0
  }

  /** How many edges are no loops; repeated edges count again. */
  ghost function ProperEdges(edges: seq<Edge>): nat {
    if edges == [] then 0 else
      var e := edges[|edges| - 1];
      ProperEdges(edges[..|edges| - 1]) + if e.0 != e.1 then 1 else 0
  }

  /** At most fifteen neighbours each, and, before duplicates are removed, no list too long for any table. */
  ghost predicate Sparse(edges: seq<Edge>) {
    Narrow(GraphOf(edges)) && forall v :: Times(edges, v) <= Pow2(MAX_WIDTH - 1)
  }

  ghost predicate Represents(lists: Lists, edges: seq<Edge>) {
    && lists.Keys == Endpoints(edges)
    && (forall v, w :: v in lists ==> (w in lists[v] <==> Joined(edges, v, w)))
    && forall v :: v in lists ==> |lists[v]| == Times(edges, v)
  }

  /** The greatest length of a list; -1 stands for "no edge yet". */
  ghost predicate Bounded(lists: Lists, maxdeg: int) {
    && (forall v :: v in lists ==> lists[v] == [] || |lists[v]| <= maxdeg)
    && (maxdeg == -1 || (maxdeg >= 1 && exists v :: v in lists && |lists[v]| == maxdeg))
  }

  ghost predicate OnlyLoops(edges: seq<Edge>) {
    forall e :: e in edges ==> e.0 == e.1
  }

  function Larger(a: int, b: int): int {
    if a > b then a else b
  }

  lemma BoundedAfter(lists: Lists, maxdeg: int, v: Vertex, w: Vertex)
    requires Bounded(lists, maxdeg)
    ensures var l := WithEdge(lists, v, w);
            v in l && w in l && Bounded(l, if v == w then maxdeg else Larger(Larger(maxdeg, |l[v]|), |l[w]|))
  {
    var l := WithEdge(lists, v, w);
    if maxdeg != -1 {
      var u :| u in lists && |lists[u]| == maxdeg;
      assert u in l && (if u == v || u == w then |l[u]| >= maxdeg else l[u] == lists[u]);
    }
  }

  lemma NoEdges(maxdeg: int)
    requires maxdeg == -1
    ensures Bounded(map[], maxdeg) && Represents(map[], [])
  {
  }

  /** What the greatest list length says about the sets. */
  lemma BoundedSets(lists: Lists, maxdeg: int, g: Adjacency)
    requires Bounded(lists, maxdeg) && g == (map v | v in lists :: ToSet(lists[v]))
    ensures maxdeg >= -1 && forall v :: v in g ==> |g[v]| < maxdeg + 1 || g[v] == {}
    ensures maxdeg == -1 <==> forall v :: v in g ==> g[v] == {}
  {
    forall v | v in lists ensures |g[v]| <= |lists[v]| && (g[v] == {} <==> lists[v] == []) {
      ListedSetSize(lists[v]);
      assert lists[v] != [] ==> lists[v][0] in ToSet(lists[v]);
    }
  }

  lemma MoreEndpoints(edges: seq<Edge>, e: Edge)
    ensures Endpoints(edges + [e]) == Endpoints(edges) + {e.0, e.1}
  {
    assert forall x :: x in edges + [e] <==> x in edges || x == e;
  }

  lemma MoreJoined(edges: seq<Edge>, e: Edge, v: Vertex, w: Vertex)
    ensures Joined(edges + [e], v, w) <==> Joined(edges, v, w) || (v != w && (e == (v, w) || e == (w, v)))
  {
    assert (v, w) in edges + [e] <==> (v, w) in edges || e == (v, w);
    assert (w, v) in edges + [e] <==> (w, v) in edges || e == (w, v);
  }

  lemma JoinedEndpoints(edges: seq<Edge>, v: Vertex, w: Vertex)
    requires Joined(edges, v, w)
    ensures v in Endpoints(edges) && w in Endpoints(edges)
  {
  }

  lemma OneMoreEdge(lists: Lists, edges: seq<Edge>, e: Edge)
    requires Represents(lists, edges)
    ensures Represents(WithEdge(lists, e.0, e.1), edges + [e])
  {
    hide Endpoints;
    MoreEndpoints(edges, e);
    var lists' := WithEdge(lists, e.0, e.1);
    forall v | v in lists' ensures |lists'[v]| == Times(edges + [e], v) {
      LengthAfter(lists, edges, e, v);
    }
    forall v: Vertex, w: Vertex | v in lists' ensures w in lists'[v] <==> Joined(edges + [e], v, w) {
      MoreJoined(edges, e, v, w);
      if Joined(edges, v, w) {
        JoinedEndpoints(edges, v, w);
      }
      hide Joined;
      NeighboursAfter(lists, e.0, e.1, v, w);
    }
  }

  lemma LengthAfter(lists: Lists, edges: seq<Edge>, e: Edge, v: Vertex)
    requires Represents(lists, edges) && v in WithEdge(lists, e.0, e.1)
    ensures |WithEdge(lists, e.0, e.1)[v]| == Times(edges + [e], v)
  {
    assert (edges + [e])[..|edges + [e]| - 1] == edges;
    if v !in lists {
      hide WithEdge;
      NotJoined(edges, v);
    }
  }

  /** A vertex that is no end point has no edges. */
  lemma {:induction false} NotJoined(edges: seq<Edge>, v: Vertex)
    requires v !in Endpoints(edges)
    ensures Times(edges, v) == 0
    decreases |edges|
  {
    if edges != [] {
      var init, e := edges[..|edges| - 1], edges[|edges| - 1];
      assert edges == init + [e];
      MoreEndpoints(init, e);
      hide Endpoints;
      NotJoined(init, v);
    }
  }

  lemma NeighboursAfter(lists: Lists, a: Vertex, b: Vertex, v: Vertex, w: Vertex)
    requires v in WithEdge(lists, a, b)
    ensures w in WithEdge(lists, a, b)[v] <==>
        (v in lists && w in lists[v]) || (a != b && ((v == a && w == b) || (v == b && w == a)))
  {
  }

  lemma SparseListsAreShort(lists: Lists, edges: seq<Edge>)
    requires Represents(lists, edges) && Sparse(edges)
    ensures Short(lists) && Narrow(GraphOf(edges))
  {
    ListsGiveGraph(lists, edges);
    hide Endpoints, Joined, Times, GraphOf, Pow2;
    forall v | v in lists ensures |ToSet(lists[v])| <= 15 {
      assert v in GraphOf(edges) && GraphOf(edges)[v] == ToSet(lists[v]);
    }
  }

  lemma ListsGiveGraph(lists: Lists, edges: seq<Edge>)
    requires Represents(lists, edges)
    ensures (map v | v in lists :: ToSet(lists[v])) == GraphOf(edges)
  {
    var m := map v | v in lists :: ToSet(lists[v]);
    forall v | v in m ensures m[v] == GraphOf(edges)[v] {
      forall w ensures w in m[v] <==> w in GraphOf(edges)[v] {
        assert w in lists[v] <==> Joined(edges, v, w);
        if Joined(edges, v, w) {
          assert w in Endpoints(edges);
        }
      }
    }
  }
}
