/**
 The graph of the search: adjacency sets that are lists while the graph is built and hash tables
 from then on.
 */
module Graphs {
  import opened Keys
  import opened FiniteSets
  import opened Filters
  import opened HashSets
  import SetBuilds
  import opened Cliques
  import opened Subgraphs
  import opened AdjacencyMaps
  import opened EdgeLists
  import opened Pruning
  import opened Roots
  import opened Degeneracy
  import opened Hopscotch

  class Graph {
    var adjList: SetMap
    var edgeNo: nat
    var maxdeg: int
    var degeneracy: nat
    var pivot_node: int
    var vertexOrdering: seq<Vertex>
    var backwardsMapping: map<Vertex, nat>

    /** The adjacency lists of a graph under construction, and the adjacency sets of a finished one. */
    ghost var lists: Lists
    ghost var store: set<object>
    ghost var model: Adjacency

    /** Every adjacency set is hashed. */
    ghost predicate Ready()
      reads this, store
    {
      && this !in store && adjList.Keys == model.Keys
      && forall v :: v in adjList ==>
        && adjList[v] in store && adjList[v].Repr <= store
        && adjList[v].Valid() && adjList[v].isHashed && adjList[v].Set() == model[v]
    }

    /** Under construction: `lists` are the adjacency lists, and those of `done` are hashed already. */
    ghost predicate Building(done: set<Vertex>)
      reads this, store
    {
      this !in store && Stored(adjList, lists, done, store)
    }

    /** A table of an adjacency set has outgrown its bounds, which ends the process. */
    ghost predicate Overgrown()
      reads this, set v | v in adjList :: adjList[v], set v | v in adjList :: adjList[v].hashed_elems
    {
      exists v :: v in adjList && v in lists && Outgrown(adjList[v], lists[v])
    }

    constructor ()
      ensures Building({}) && store == {} && lists == map[] && maxdeg == -1 && edgeNo == 0 && pivot_node == -1
    {
      adjList, lists, model, vertexOrdering, backwardsMapping := map[], map[], map[], [], map[];
      edgeNo, maxdeg, degeneracy, pivot_node := 0, -1, 0, -1;
      store := {};
    }

    /** A vertex without neighbours, unless it is there already. */
    method AddVertex(v: Vertex)
      requires Building({})
      modifies this
      ensures Building({}) && fresh(store - old(store))
      ensures lists == if v in old(lists) then old(lists) else old(lists)[v := []]
      ensures maxdeg == old(maxdeg) && edgeNo == old(edgeNo) && pivot_node == old(pivot_node)
      ensures vertexOrdering == old(vertexOrdering) && backwardsMapping == old(backwardsMapping)
    {
      hide Stored, SimpleHashSet.Valid, SimpleHashSet.List, SimpleHashSet.AtStart;
      KeysAgree({});
      if v !in adjList {
        var s := new SimpleHashSet();
        SetAdjacency(v, s);
      }
    }

    lemma KeysAgree(done: set<Vertex>)
      requires Building(done)
      ensures adjList.Keys == lists.Keys
    {
    }

    method SetAdjacency(v: Vertex, s: SimpleHashSet)
      requires Building({}) && v !in lists && s.Valid() && !s.isHashed && s.Repr !! store && this !in s.Repr
      modifies this`adjList, this`lists, this`store
      ensures Building({}) && store == old(store) + s.Repr
      ensures lists == old(lists)[v := s.List()]
    {
      hide Stored, SimpleHashSet.Valid, SimpleHashSet.List;
      KeysAgree({});
      StoreNew(adjList, lists, store, v, s);
      adjList := adjList[v := s];
      lists := lists[v := s.List()];
      store := store + s.Repr;
    }

    method AddNeighbour(v: Vertex, w: Vertex)
      requires Building({}) && v in lists
      modifies this`lists, this`store, store
      ensures Building({}) && fresh(store - old(store))
      ensures lists == old(lists)[v := old(lists)[v] + [w]]
    {
      hide Stored;
      KeysAgree({});
      ghost var S := AddTo(adjList, lists, store, v, w);
      lists := lists[v := lists[v] + [w]];
      store := S;
    }

    /** The length of a list, and the maximum taken over it. */
    method NoteDegree(v: Vertex)
      requires Building({}) && v in lists
      modifies this`maxdeg
      ensures Building({})
      ensures maxdeg == Larger(old(maxdeg), |lists[v]|)
    {
      hide Stored, SimpleHashSet.Valid, SimpleHashSet.List;
      StoredAt(adjList, lists, {}, store, v);
      var n := adjList[v].Size();
      if n > maxdeg {
        maxdeg := n;
      }
    }

    method AddEdge(v: Vertex, w: Vertex)
      requires Building({}) && Bounded(lists, maxdeg)
      modifies this, store
      ensures Building({}) && Bounded(lists, maxdeg) && fresh(store - old(store))
      ensures lists == WithEdge(old(lists), v, w) && edgeNo == old(edgeNo) + if v == w then 0 else 2
      ensures pivot_node == old(pivot_node) && vertexOrdering == old(vertexOrdering)
          && backwardsMapping == old(backwardsMapping)
    {
      hide Stored, Bounded;
      ghost var before := lists;
      BoundedAfter(lists, maxdeg, v, w);
      AddVertex(v);
      AddVertex(w);
      if v == w {
        return;
      }
      AddBothWays(v, w);
      edgeNo := edgeNo + 2;
    }

    /** w becomes a neighbour of v and v one of w, and `maxdeg` follows. */
    method AddBothWays(v: Vertex, w: Vertex)
      requires Building({}) && v in lists && w in lists && v != w
      modifies this`lists, this`store, this`maxdeg, store
      ensures Building({}) && fresh(store - old(store))
      ensures lists == old(lists)[v := old(lists)[v] + [w]][w := old(lists)[w] + [v]]
      ensures maxdeg == Larger(Larger(old(maxdeg), |lists[v]|), |lists[w]|)
    {
      hide Stored;
      AddNeighbour(v, w);
      AddNeighbour(w, v);
      NoteDegree(v);
      NoteDegree(w);
    }

    /** Hash every adjacency set, in any order; false stands for the process exiting. */
    method HashAll() returns (ok: bool)
      requires Building({})
      modifies this`store, this`model, store
      ensures ok ==> Ready() && fresh(store - old(store)) && adjList == old(adjList)
      ensures ok ==> model == map v | v in lists :: ToSet(lists[v])
      ensures Short(old(lists)) ==> ok
      ensures !ok ==> Overgrown()
    {
      hide Stored, SimpleHashSet.Valid, SimpleHashSet.List, SimpleHashSet.Set, Outgrown;
      KeysAgree({});
      var rest := adjList.Keys;
      ghost var done: set<Vertex> := {};
      while rest != {}
        invariant Building(done) && fresh(store - old(store)) && adjList == old(adjList)
        invariant rest !! done && rest + done == adjList.Keys
        decreases rest
      {
        var v :| v in rest;
        ghost var S;
        ok, S := HashOne(adjList, lists, done, store, v);
        if !ok {
          return;
        }
        store := S;
        rest, done := rest - {v}, done + {v};
      }
      model := map v | v in lists :: ToSet(lists[v]);
      forall v | v in adjList
        ensures adjList[v] in store && adjList[v].Repr <= store && adjList[v].Valid() && adjList[v].isHashed
            && adjList[v].Set() == model[v]
      {
        StoredAt(adjList, lists, done, store, v);
      }
      ok := true;
    }

    /** The vertices in map order, until a better order is computed. */
    method InitOrdering()
      modifies this`vertexOrdering, this`backwardsMapping
      ensures Enumerates(vertexOrdering, adjList.Keys)
      ensures backwardsMapping.Keys >= adjList.Keys && forall i :: 0 <= i < |vertexOrdering| ==>
          backwardsMapping[vertexOrdering[i]] == i
    {
      var rest := adjList.Keys;
      vertexOrdering, backwardsMapping := [], map[];
      while rest != {}
        invariant rest <= adjList.Keys && Enumerates(vertexOrdering, adjList.Keys - rest)
        invariant backwardsMapping.Keys >= adjList.Keys - rest
        invariant forall i :: 0 <= i < |vertexOrdering| ==> backwardsMapping[vertexOrdering[i]] == i
        decreases rest
      {
        var v :| v in rest;
        backwardsMapping := backwardsMapping[v := |vertexOrdering|];
        vertexOrdering := EnumerateOneMore(vertexOrdering, adjList.Keys - rest, v);
        assert adjList.Keys - (rest - {v}) == (adjList.Keys - rest) + {v};
        rest := rest - {v};
      }
      assert adjList.Keys - rest == adjList.Keys;
    }

    method AddEdges(edges: seq<Edge>)
      requires Building({}) && lists == map[] && maxdeg == -1 && edgeNo == 0
      modifies this, store
      ensures Building({}) && Bounded(lists, maxdeg) && fresh(store - old(store)) && Represents(lists, edges)
      ensures edgeNo == 2 * ProperEdges(edges)
    {
      hide Stored, Represents, Bounded;
      NoEdges(maxdeg);
      for i := 0 to |edges|
        invariant Building({}) && Bounded(lists, maxdeg) && fresh(store - old(store))
        invariant Represents(lists, edges[..i]) && edgeNo == 2 * ProperEdges(edges[..i])
      {
        OneMoreEdge(lists, edges[..i], edges[i]);
        assert edges[..i + 1] == edges[..i] + [edges[i]];
        assert edges[..i + 1][..i] == edges[..i];
        AddEdge(edges[i].0, edges[i].1);
      }
      assert edges[..|edges|] == edges;
    }

    /** Reading a graph: all edges in file order, then the sets are hashed. */
    method LoadEdges(edges: seq<Edge>) returns (ok: bool)
      requires Building({}) && lists == map[] && maxdeg == -1 && edgeNo == 0
      modifies this, store
      ensures edgeNo == 2 * ProperEdges(edges)
      ensures ok ==> Ready() && fresh(store - old(store)) && model == GraphOf(edges)
      ensures ok ==> maxdeg >= -1 && forall v :: v in model ==> |model[v]| < maxdeg + 1 || model[v] == {}
      ensures ok ==> (maxdeg == -1 <==> forall v :: v in model ==> model[v] == {})
      ensures Sparse(edges) ==> ok && Narrow(model)
      ensures !ok ==> Overgrown()
      ensures ok ==> Enumerates(vertexOrdering, model.Keys)
      ensures ok ==> backwardsMapping.Keys >= model.Keys && forall i :: 0 <= i < |vertexOrdering| ==>
          backwardsMapping[vertexOrdering[i]] == i
    {
      hide Stored, Represents, Bounded, GraphOf, Sparse, Short, Narrow, Overgrown;
      AddEdges(edges);
      InitOrdering();
      if Sparse(edges) {
        SparseListsAreShort(lists, edges);
      }
      ok := HashAll();
      ListsGiveGraph(lists, edges);
      BoundedSets(lists, maxdeg, GraphOf(edges));
    }

    /** The adjacency set of v, as an operand on the right. */
    method GetAdjacentNodes(v: Vertex) returns (s: SimpleHashSet)
      requires Ready() && v in model
      ensures s == adjList[v] && s.Valid() && s.isHashed && s.Set() == model[v] && s.Lookup() == model[v]
          && s in store && s.Repr <= store
    {
      s := adjList[v];
    }

    /** One candidate of the pivot selection: taken over only if it is strictly better. */
    method Consider(vector: bool, P: SimpleHashSet, node: Vertex, pivot: int, maxint: nat)
      returns (ok: bool, pivot': int, maxint': nat, ghost miss: Miss)
      requires Ready() && node in model && P.Valid() && !P.isHashed
      ensures ok ==> maxint' == if Overlap(model, P.List(), node) > maxint then Overlap(model, P.List(), node)
          else maxint
      ensures ok ==> pivot' == if Overlap(model, P.List(), node) > maxint then node else pivot
      ensures (Narrow(model) ==> ok) && (!ok ==> SetBuilds.Misses(vector, miss))
    {
      hide SimpleHashSet.Valid, SimpleHashSet.List, SimpleHashSet.Lookup, Filter, SetBuilds.Misses;
      var adj_nodes := GetAdjacentNodes(node);
      var sz;
      ok, sz, miss := SetBuilds.IntersectionSize(vector, P, adj_nodes);
      pivot', maxint' := pivot, maxint;
      if sz > maxint {
        pivot', maxint' := node, sz;
      }
    }

    /** `pivot_selection` over a list. */
    method ConsiderAll(vector: bool, P: SimpleHashSet, seen: seq<Vertex>, pivot: int, maxint: nat)
      returns (ok: bool, pivot': int, maxint': nat, ghost miss: Miss)
      requires Ready() && P.Valid() && !P.isHashed && forall v :: v in seen ==> v in model
      ensures ok ==> maxint' >= maxint && forall v :: v in seen ==> Overlap(model, P.List(), v) <= maxint'
      ensures ok ==>
          (pivot' == pivot && maxint' == maxint) ||
          (maxint' > maxint && IsKey(pivot') && pivot' in seen && Overlap(model, P.List(), pivot') == maxint')
      ensures (Narrow(model) ==> ok) && (!ok ==> SetBuilds.Misses(vector, miss))
    {
      hide SimpleHashSet.Valid, SimpleHashSet.List, Graph.Ready, Overlap, SetBuilds.Misses, Narrow;
      ok, pivot', maxint', miss := true, pivot, maxint, NO_MISS;
      for i := 0 to |seen|
        invariant ok && maxint' >= maxint && forall k :: 0 <= k < i ==> Overlap(model, P.List(), seen[k]) <= maxint'
        invariant (pivot' == pivot && maxint' == maxint) ||
                  (maxint' > maxint && IsKey(pivot') && pivot' in seen && Overlap(model, P.List(), pivot') == maxint')
      {
        ok, pivot', maxint', miss := Consider(vector, P, seen[i], pivot', maxint');
        if !ok {
          return;
        }
      }
    }

    /** The vertex of X or P with the most neighbours in P; -1 when P is empty. */
    method GetPivot(vector: bool, P: SimpleHashSet, X: SimpleHashSet) returns (ok: bool, pivot: int, ghost miss: Miss)
      requires Ready() && P.Valid() && !P.isHashed && X.Valid() && !X.isHashed
      requires forall v :: v in P.List() || v in X.List() ==> v in model
      ensures ok && P.List() == [] ==> pivot == -1
      ensures ok && P.List() != [] ==> BestOf(model, P.List(), X.List(), pivot)
      ensures (Narrow(model) ==> ok) && (!ok ==> SetBuilds.Misses(vector, miss))
    {
      hide SimpleHashSet.Valid, SimpleHashSet.List, Graph.Ready, Overlap, SetBuilds.Misses, Narrow;
      pivot := P.GetFirst();
      var maxint := 0;
      var seen := X.ForEach();
      ok, pivot, maxint, miss := ConsiderAll(vector, P, seen, pivot, maxint);
      if !ok {
        return;
      }
      seen := P.ForEach();
      ok, pivot, maxint, miss := ConsiderAll(vector, P, seen, pivot, maxint);
      NoOverlap(model);
    }

    // --- subgraphs ---

    method SetAdjacentNodes(v: Vertex, s: SimpleHashSet)
      requires Building({}) && v !in lists && s.Valid() && !s.isHashed && s.Repr !! store && this !in s.Repr
      modifies this`adjList, this`lists, this`store, this`edgeNo, this`maxdeg
      ensures Building({}) && store == old(store) + s.Repr
      ensures lists == old(lists)[v := s.List()]
      ensures edgeNo == old(edgeNo) + |s.List()| && maxdeg == Larger(old(maxdeg), |s.List()|)
    {
      hide Stored, SimpleHashSet.Valid, SimpleHashSet.List;
      var n := s.Size();
      SetAdjacency(v, s);
      edgeNo := edgeNo + n;
      if n > maxdeg {
        maxdeg := n;
      }
    }

    /** The list of one vertex of the subgraph: its neighbours in P. */
    method PruneNode(vector: bool, P: SimpleHashSet, node: Vertex, sub: Graph, max_neighbors: int,
          ghost ps: seq<Vertex>, ghost seen: set<Vertex>)
      returns (ok: bool, overlapping: SimpleHashSet, max_neighbors': int, ghost miss: Miss)
      requires Ready() && node in model && P.Valid() && !P.isHashed && P.List() == ps
      requires sub.Building({}) && node !in sub.lists && sub != this
      requires BestSoFar(model, ps, seen, sub.pivot_node, max_neighbors)
      modifies sub
      ensures (Narrow(model) ==> ok) && (!ok ==> SetBuilds.Misses(vector, miss))
      ensures ok ==> sub.Building({}) && fresh(sub.store - old(sub.store)) && old(sub.store) <= sub.store
      ensures ok ==> sub.lists == old(sub.lists)[node := Filter(ps, model[node], true)]
      ensures ok ==> overlapping.Valid() && !overlapping.isHashed && overlapping.List() == Filter(ps, model[node], true)
      ensures ok ==> BestSoFar(model, ps, seen + {node}, sub.pivot_node, max_neighbors')
    {
      hide Stored, SimpleHashSet.Valid, SimpleHashSet.List, SimpleHashSet.Lookup, SimpleHashSet.AtStart, Filter;
      hide BestSoFar, Ready, SetBuilds.Misses;
      TakeBetter(model, ps, seen, sub.pivot_node, max_neighbors, node);
      var adj := GetAdjacentNodes(node);
      max_neighbors' := max_neighbors;
      ok, overlapping, miss := SetBuilds.Intersect(vector, P, adj);
      if !ok {
        return;
      }
      var n := overlapping.Size();
      sub.SetAdjacentNodes(node, overlapping);
      if n > max_neighbors {
        max_neighbors' := n;
        sub.pivot_node := node;
      }
    }

    /** The vertex x of X becomes a neighbour of each of its own neighbours. */
    method AddToNeighbours(ol: seq<Vertex>, x: Vertex, ghost h: Adjacency, ghost ps: seq<Vertex>, ghost Xs: set<Vertex>)
      requires Building({}) && WithPartOf(lists, h, ps, Xs, x, []) && NoRepeats(lists) && NoDups(ol)
          && forall v :: v in ol ==> v in ps
      modifies this`lists, this`store, this`edgeNo, this`maxdeg, store
      ensures Building({}) && fresh(store - old(store)) && WithPartOf(lists, h, ps, Xs, x, ol) && NoRepeats(lists)
    {
      hide Stored, WithPartOf, NoRepeats;
      for j := 0 to |ol|
        invariant Building({}) && fresh(store - old(store)) && WithPartOf(lists, h, ps, Xs, x, ol[..j])
            && NoRepeats(lists)
      {
        AddedWithoutRepeats(lists, h, ps, Xs, x, ol[..j], ol[j]);
        StepPartOf(lists, h, ps, Xs, x, ol[..j], ol[j]);
        assert ol[..j + 1] == ol[..j] + [ol[j]];
        AddNeighbour(ol[j], x);
        edgeNo := edgeNo + 1;
        NoteDegree(ol[j]);
      }
      assert ol[..|ol|] == ol;
    }

    /** One vertex x of X: its list, and its edges in the other direction. */
    method AddXNode(vector: bool, P: SimpleHashSet, x: Vertex, sub: Graph, max_so_far: int, ghost ps: seq<Vertex>,
          ghost Xs: set<Vertex>)
      returns (ok: bool, max_neighbors: int, ghost miss: Miss)
      requires Ready() && P.Valid() && !P.isHashed && ps == P.List() && NoDups(ps) && x in model && x !in ps && x !in Xs
      requires NoRepeats(sub.lists) && sub.Building({}) && WithX(sub.lists, model, ps, Xs)
          && BestSoFar(model, ps, ToSet(ps) + Xs, sub.pivot_node, max_so_far)
      requires sub != this && this !in sub.store
      modifies sub, sub.store
      ensures (Narrow(model) ==> ok) && (!ok ==> SetBuilds.Misses(vector, miss))
      ensures ok ==> sub.Building({}) && fresh(sub.store - old(sub.store)) && WithX(sub.lists, model, ps, Xs + {x})
      ensures ok ==> NoRepeats(sub.lists) && BestSoFar(model, ps, ToSet(ps) + (Xs + {x}), sub.pivot_node, max_neighbors)
    {
      hide Stored, SimpleHashSet.Valid, SimpleHashSet.List, SimpleHashSet.Lookup, SimpleHashSet.AtStart, Filter, Ready;
      hide BestSoFar, WithX, WithPartOf, Overlap, NoRepeats, NoDups, SetBuilds.Misses, Narrow;
      StartPartOf(sub.lists, model, ps, Xs, x);
      FilteredWithoutRepeats(sub.lists, ps, x, model[x]);
      var overlapping;
      ok, overlapping, max_neighbors, miss := PruneNode(vector, P, x, sub, max_so_far, ps, ToSet(ps) + Xs);
      if !ok {
        return;
      }
      var ol := overlapping.ForEach();
      FilterSelects(ps, model[x], true);
      FilterIsSetOperation(ps, model[x], true);
      sub.AddToNeighbours(ol, x, model, ps, Xs);
      EndPartOf(sub.lists, model, ps, Xs, x);
      assert ToSet(ps) + Xs + {x} == ToSet(ps) + (Xs + {x});
    }

    /** The lists of the vertices of X, and hashing. */
    method FinishSubgraph(vector: bool, P: SimpleHashSet, X: SimpleHashSet, sub: Graph, max_so_far: int,
          ghost ps: seq<Vertex>, ghost xs: seq<Vertex>)
      returns (ok: bool, ghost miss: Miss)
      requires Ready() && P.Valid() && !P.isHashed && X.Valid() && !X.isHashed && ps == P.List() && xs == X.List()
      requires NoDups(ps) && NoDups(xs) && ToSet(ps) !! ToSet(xs) && ToSet(ps) + ToSet(xs) <= model.Keys
      requires sub.Building({}) && WithX(sub.lists, model, ps, {}) && NoRepeats(sub.lists)
          && BestSoFar(model, ps, ToSet(ps), sub.pivot_node, max_so_far)
      requires sub != this && sub !in store + P.Repr && sub.store !! store + P.Repr && this !in sub.store
      modifies sub, sub.store
      ensures ok ==>
          sub.Ready() && fresh(sub.store - old(sub.store)) && sub.model == Pruned(model, ToSet(ps), ToSet(xs))
      ensures ok && ps != [] ==> BestOf(model, ps, xs, sub.pivot_node)
      ensures Narrow(model) && Narrow(Pruned(model, ToSet(ps), ToSet(xs))) ==> ok
      ensures !ok ==> sub.Overgrown() || SetBuilds.Misses(vector, miss)
    {
      hide Stored, SimpleHashSet.Valid, SimpleHashSet.List, SimpleHashSet.Lookup, SimpleHashSet.AtStart, Filter, Ready;
      hide BestSoFar, InsideP, WithX, WithPartOf, Overlap, BestOf, Pruned, NoDups, NoRepeats, Narrow, Short, Overgrown;
      hide SetBuilds.Misses;
      miss := NO_MISS;
      PrefixAll(xs);
      var max_neighbors := max_so_far;
      var xl := X.ForEach();
      assert ToSet(ps) + ToSet(xs[..0]) == ToSet(ps);
      for i := 0 to |xl|
        invariant sub.Building({}) && fresh(sub.store - old(sub.store)) && sub.store !! store + P.Repr
            && this !in sub.store
        invariant model == old(model) && Ready() && P.Valid() && !P.isHashed && ps == P.List()
        invariant WithX(sub.lists, model, ps, ToSet(xs[..i])) && NoRepeats(sub.lists)
        invariant BestSoFar(model, ps, ToSet(ps) + ToSet(xs[..i]), sub.pivot_node, max_neighbors)
      {
        PrefixSet(xs, i);
        assert xl[i] in ToSet(xs);
        ok, max_neighbors, miss := AddXNode(vector, P, xl[i], sub, max_neighbors, ps, ToSet(xs[..i]));
        if !ok {
          return;
        }
      }
      EndX(sub.lists, model, ps, xs);
      if Narrow(Pruned(model, ToSet(ps), ToSet(xs))) {
        WithoutRepeatsShort(sub.lists, Pruned(model, ToSet(ps), ToSet(xs)));
      }
      ok := sub.HashAll();
      if ps != [] {
        AllSeen(model, ps, xs, sub.pivot_node, max_neighbors);
      }
    }

    /**
     The subgraph on P and X, without the edges inside X, hashed; and the vertex of it with the most
     neighbours in P. False stands for the process exiting while a set is hashed, or a stray lookup.
     */
    method CreateHpxSubgraph(vector: bool, P: SimpleHashSet, X: SimpleHashSet)
      returns (ok: bool, sub: Graph, ghost miss: Miss)
      requires Ready() && P.Valid() && !P.isHashed && X.Valid() && !X.isHashed
      requires NoDups(P.List()) && NoDups(X.List()) && ToSet(P.List()) !! ToSet(X.List())
      requires ToSet(P.List()) + ToSet(X.List()) <= model.Keys
      ensures fresh(sub)
      ensures ok ==> sub.Ready() && fresh(sub.store) && sub.model == Pruned(model, ToSet(P.List()), ToSet(X.List()))
      ensures ok && P.List() != [] ==> BestOf(model, P.List(), X.List(), sub.pivot_node)
      ensures Narrow(model) && Narrow(Pruned(model, ToSet(P.List()), ToSet(X.List()))) ==> ok
      ensures !ok ==> sub.Overgrown() || SetBuilds.Misses(vector, miss)
    {
      hide Stored, SimpleHashSet.Valid, SimpleHashSet.List, SimpleHashSet.Lookup, SimpleHashSet.AtStart, Filter, Ready;
      hide BestSoFar, InsideP, WithX, WithPartOf, Overlap, BestOf, Pruned, NoDups, NoRepeats, Narrow, Overgrown;
      hide SetBuilds.Misses;
      ghost var ps, xs := P.List(), X.List();
      sub := new Graph();
      var max_neighbors := -1;
      NothingSeen(model, ps, sub.pivot_node);
      NothingInside(model, ps);
      NothingRepeats();
      var pl := P.ForEach();
      for i := 0 to |pl|
        invariant sub.Building({}) && fresh(sub.store)
        invariant InsideP(sub.lists, model, ps, i) && NoRepeats(sub.lists)
        invariant BestSoFar(model, ps, ToSet(ps[..i]), sub.pivot_node, max_neighbors)
      {
        PrefixSet(ps, i);
        assert pl[i] in ToSet(ps);
        StepInP(sub.lists, model, ps, i);
        FilteredWithoutRepeats(sub.lists, ps, pl[i], model[pl[i]]);
        var overlapping;
        ok, overlapping, max_neighbors, miss := PruneNode(vector, P, pl[i], sub, max_neighbors, ps, ToSet(ps[..i]));
        if !ok {
          return;
        }
      }
      PrefixAll(ps);
      PrefixAll(xs);
      StartX(sub.lists, model, ps);
      ok, miss := FinishSubgraph(vector, P, X, sub, max_neighbors, ps, xs);
    }

    // --- degeneracy ordering ---

    /** Every vertex goes into the bucket of its degree. */
    method FillBuckets(degArray: array<set<Vertex>>) returns (nodeDegrees: Degrees)
      requires Ready() && degArray !in store
      requires forall v :: v in model ==> |model[v]| < degArray.Length
      requires forall i :: 0 <= i < degArray.Length ==> degArray[i] == {}
      modifies degArray
      ensures nodeDegrees.Keys == model.Keys && forall v :: v in model ==> nodeDegrees[v] == |model[v]|
      ensures Sorted(degArray[..], nodeDegrees, model.Keys)
    {
      hide Sorted, SimpleHashSet.Valid, SimpleHashSet.Set, SimpleHashSet.List;
      nodeDegrees := map[];
      var rest := adjList.Keys;
      while rest != {}
        invariant Ready() && rest <= model.Keys && nodeDegrees.Keys == model.Keys - rest
        invariant forall v :: v in nodeDegrees ==> nodeDegrees[v] == |model[v]|
        invariant forall i, n :: 0 <= i < degArray.Length ==>
            (n in degArray[i] <==> n in nodeDegrees && nodeDegrees[n] == i)
        decreases rest
      {
        var v :| v in rest;
        var size := adjList[v].Size();
        degArray[size] := degArray[size] + {v};
        nodeDegrees := nodeDegrees[v := size];
        rest := rest - {v};
      }
      BucketsSorted(degArray[..], nodeDegrees);
    }

    /** The scan for the first non-empty bucket. */
    method FirstBucket(degArray: array<set<Vertex>>) returns (i: nat)
      ensures i <= degArray.Length && forall j :: 0 <= j < i ==> degArray[j] == {}
      ensures i < degArray.Length ==> degArray[i] != {}
    {
      i := 0;
      while i < degArray.Length && degArray[i] == {}
        invariant i <= degArray.Length && forall j :: 0 <= j < i ==> degArray[j] == {}
      {
        i := i + 1;
      }
    }

    /** The neighbours of v that are still in the buckets move down by one. */
    method StrikeNeighbours(degArray: array<set<Vertex>>, degrees: Degrees, v: Vertex, ghost U: set<Vertex>)
      returns (nodeDegrees: Degrees)
      requires Ready() && degArray !in store && v in model && Simple(model)
      requires Striking(degArray[..], degrees, model, U, v, {})
      modifies degArray
      ensures Exact(degArray[..], nodeDegrees, model, U)
    {
      hide Striking, Exact, SimpleHashSet.Valid, SimpleHashSet.Set;
      nodeDegrees := degrees;
      var seen := adjList[v].ForEach();
      PrefixAll(seen);
      EnumeratesItsSet(seen, model[v]);
      for k := 0 to |seen|
        invariant Striking(degArray[..], nodeDegrees, model, U, v, ToSet(seen[..k]))
      {
        PrefixSet(seen, k);
        nodeDegrees := StrikeNeighbour(degArray, nodeDegrees, v, seen[k], U, ToSet(seen[..k]));
      }
      EndStriking(degArray[..], nodeDegrees, model, U, v);
    }

    method StrikeNeighbour(degArray: array<set<Vertex>>, degrees: Degrees, v: Vertex, n: Vertex, ghost U: set<Vertex>,
          ghost D: set<Vertex>)
      returns (nodeDegrees: Degrees)
      requires v in model && Simple(model) && n in model[v] && n !in D
      requires Striking(degArray[..], degrees, model, U, v, D)
      modifies degArray
      ensures Striking(degArray[..], nodeDegrees, model, U, v, D + {n})
    {
      hide Striking;
      ghost var was := degArray[..];
      StrikeOne(was, degrees, model, U, v, D, n);
      nodeDegrees := degrees;
      var degIndex := nodeDegrees[n];
      if n in degArray[degIndex] {
        degArray[degIndex] := degArray[degIndex] - {n};
        if degIndex != 0 {
          degArray[degIndex - 1] := degArray[degIndex - 1] + {n};
        }
        nodeDegrees := nodeDegrees[n := degIndex - 1];
        assert degArray[..] == was[degIndex := was[degIndex] - {n}][degIndex - 1 := was[degIndex - 1] + {n}];
      }
    }

    /** Take any vertex out of the first non-empty bucket. */
    method TakeFirst(degArray: array<set<Vertex>>) returns (nextNode: Vertex, i: nat)
      requires exists j, v :: 0 <= j < degArray.Length && v in degArray[j]
      modifies degArray
      ensures i < degArray.Length && nextNode in old(degArray[i]) && forall j :: 0 <= j < i ==> old(degArray[j]) == {}
      ensures degArray[..] == old(degArray[..])[i := old(degArray[i]) - {nextNode}]
    {
      i := FirstBucket(degArray);
      nextNode :| nextNode in degArray[i];
      degArray[i] := degArray[i] - {nextNode};
    }

    /** Remove a vertex of least degree from the buckets. */
    method RemoveLeast(degArray: array<set<Vertex>>, degrees: Degrees, ghost U: set<Vertex>)
      returns (nextNode: Vertex, i: nat, nodeDegrees: Degrees)
      requires Ready() && degArray !in store && Simple(model) && U != {}
      requires Exact(degArray[..], degrees, model, U)
      modifies degArray
      ensures nextNode in U && DegreeIn(model, U, nextNode) == i
      ensures forall n :: n in U ==> DegreeIn(model, U, n) >= i
      ensures Exact(degArray[..], nodeDegrees, model, U - {nextNode})
    {
      hide Exact, Striking, DegreeIn, Ready;
      ghost var was := degArray[..];
      NotAllEmpty(was, degrees, model, U);
      nextNode, i := TakeFirst(degArray);
      FirstBucketIsLeast(was, degrees, model, U, i);
      StartStriking(was, degrees, model, U, i, nextNode);
      ExactInGraph(was, degrees, model, U);
      nodeDegrees := StrikeNeighbours(degArray, degrees, nextNode, U - {nextNode});
    }

    method Place(curnode: nat, nextNode: Vertex)
      requires Ready() && curnode < |vertexOrdering|
      modifies this`vertexOrdering, this`backwardsMapping
      ensures Ready()
      ensures vertexOrdering == old(vertexOrdering)[curnode := nextNode]
          && backwardsMapping == old(backwardsMapping)[nextNode := curnode]
    {
      hide SimpleHashSet.Valid, SimpleHashSet.Set;
      vertexOrdering := vertexOrdering[curnode := nextNode];
      backwardsMapping := backwardsMapping[nextNode := curnode];
    }

    method SetDegeneracy(degen: nat)
      requires Ready()
      modifies this`degeneracy
      ensures Ready() && degeneracy == degen
    {
      hide SimpleHashSet.Valid, SimpleHashSet.Set;
      degeneracy := degen;
    }

    /** Position `curnode` of the ordering: a vertex of least degree among those left. */
    method PlaceNext(degArray: array<set<Vertex>>, degrees: Degrees, curnode: nat, degen: nat, ghost S: set<Vertex>)
      returns (nodeDegrees: Degrees, degen': nat, ghost S': set<Vertex>)
      requires Ready() && degArray !in store && Simple(model) && curnode < |vertexOrdering| == |model.Keys|
      requires PlacedSoFar(model, vertexOrdering, backwardsMapping, curnode, degen, S)
      requires Exact(degArray[..], degrees, model, Unremoved(model, vertexOrdering, curnode))
      modifies degArray, this`vertexOrdering, this`backwardsMapping
      ensures Ready() && |vertexOrdering| == |old(vertexOrdering)|
      ensures PlacedSoFar(model, vertexOrdering, backwardsMapping, curnode + 1, degen', S')
      ensures Exact(degArray[..], nodeDegrees, model, Unremoved(model, vertexOrdering, curnode + 1))
    {
      hide Exact, DegreeIn, PlacedSoFar, Unremoved, Ready, Simple, NextCore;
      SomethingLeft(model, vertexOrdering, backwardsMapping, curnode, degen, S);
      var nextNode, i;
      nextNode, i, nodeDegrees := RemoveLeast(degArray, degrees, Unremoved(model, vertexOrdering, curnode));
      PlaceOne(model, vertexOrdering, backwardsMapping, curnode, degen, S, nextNode, i);
      S' := NextCore(model, vertexOrdering, curnode, degen, S, i);
      Place(curnode, nextNode);
      degen' := if i > degen then i else degen;
    }

    /**
     The degeneracy ordering. It is optimal: no order of the vertices gives every vertex fewer later
     neighbours than the degeneracy it reports.
     */
    method DegeneracyOrdering() returns (degen: nat)
      requires Ready() && Simple(model) && |vertexOrdering| == |model.Keys| && maxdeg >= -1
      requires forall v :: v in model ==> |model[v]| < maxdeg + 1
      modifies this`vertexOrdering, this`backwardsMapping, this`degeneracy
      ensures Ready() && degen == degeneracy
      ensures Enumerates<Key>(vertexOrdering, model.Keys) && ValidOrder(model, ByPosition(backwardsMapping))
      ensures Positioned(vertexOrdering, backwardsMapping, |vertexOrdering|)
      ensures LeastFirst(model, vertexOrdering, |vertexOrdering|)
      ensures LaterAtMost(model, ByPosition(backwardsMapping), degen)
      ensures model != map[] ==> NoOrderBelow(model, degen)
    {
      hide Exact, DegreeIn, PlacedSoFar, Unremoved, Sorted, ValidOrder, Later, Enumerates, Ready, LaterAtMost;
      hide NoOrderBelow, Simple, Positioned, LeastFirst;
      degen := 0;
      var degArray := new set<Vertex>[maxdeg + 1](_ => {});
      var nodeDegrees := FillBuckets(degArray);
      AllExact(degArray[..], nodeDegrees, model);
      NothingPlaced(model, vertexOrdering, backwardsMapping);
      ghost var S := {};
      var nodeNo := |vertexOrdering|;
      for curnode := 0 to nodeNo
        invariant Ready() && |vertexOrdering| == nodeNo
        invariant PlacedSoFar(model, vertexOrdering, backwardsMapping, curnode, degen, S)
        invariant Exact(degArray[..], nodeDegrees, model, Unremoved(model, vertexOrdering, curnode))
      {
        nodeDegrees, degen, S := PlaceNext(degArray, nodeDegrees, curnode, degen, S);
      }
      AllPlaced(model, vertexOrdering, backwardsMapping, degen, S);
      SetDegeneracy(degen);
    }
  }
}
