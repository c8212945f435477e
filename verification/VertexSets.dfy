/**
 The sets and cliques of the search, seen as mathematical sets: unhashed lists without duplicates.
 */
module VertexSets {
  import opened Keys
  import opened FiniteSets
  import opened Filters
  import opened Lanes
  import opened Hopscotch
  import opened UnrolledLists
  import opened HashSets
  import SetBuilds
  import opened Cliques
  import opened Graphs

  /** s is an unhashed list of the elements of S, each once. */
  ghost predicate Lists(s: SimpleHashSet, S: set<Vertex>)
    reads s, s.Repr
  {
    s.Valid() && !s.isHashed && NoDups(s.List()) && ToSet(s.List()) == S
  }

  lemma ListsSize(s: SimpleHashSet, S: set<Vertex>)
    requires Lists(s, S)
    ensures s.Valid() && !s.isHashed && |s.List()| == |S| && (s.List() == [] <==> S == {})
    ensures NoDups(s.List()) && ToSet(s.List()) == S
    ensures forall v :: v in s.List() <==> v in S
  {
    NoDupsSize(s.List());
  }

  lemma ListsOwn(s: SimpleHashSet, S: set<Vertex>)
    requires Lists(s, S)
    ensures s in s.Repr
  {
  }

  method NewList() returns (s: SimpleHashSet)
    ensures Lists(s, {}) && fresh(s.Repr) && s in s.Repr
  {
    s := new SimpleHashSet();
  }

  method SizeOf(s: SimpleHashSet, ghost S: set<Vertex>) returns (n: nat)
    requires Lists(s, S)
    ensures n == |S|
  {
    ListsSize(s, S);
    n := s.Size();
  }

  /** `intersect` with an adjacency set. */
  method Restrict(vector: bool, s: SimpleHashSet, ghost S: set<Vertex>, h: Graph, v: Vertex)
    returns (ok: bool, r: SimpleHashSet, ghost miss: Miss)
    requires Lists(s, S) && h.Ready() && v in h.model
    ensures fresh(r.Repr) && r in r.Repr && (ok ==> Lists(r, S * h.model[v]))
    ensures (Narrow(h.model) ==> ok) && (!ok ==> SetBuilds.Misses(vector, miss))
  {
    hide SimpleHashSet.Valid, SimpleHashSet.List, SimpleHashSet.Lookup, Filter, SimpleHashSet.AtStart, SetBuilds.Misses;
    var adj := h.GetAdjacentNodes(v);
    ok, r, miss := SetBuilds.Intersect(vector, s, adj);
    FilterIsSetOperation(s.List(), h.model[v], true);
    InOwnRepr(r);
  }

  /** `exclude` an adjacency set; the iterator of the result stands before its first element. */
  method Without(vector: bool, s: SimpleHashSet, ghost S: set<Vertex>, h: Graph, v: Vertex)
    returns (ok: bool, r: SimpleHashSet, ghost miss: Miss)
    requires Lists(s, S) && h.Ready() && v in h.model
    ensures fresh(r.Repr) && r in r.Repr && (ok ==> Lists(r, S - h.model[v]) && r.Valid() && r.CursorAt(-1))
    ensures (Narrow(h.model) ==> ok) && (!ok ==> SetBuilds.Misses(vector, miss))
  {
    hide SimpleHashSet.Valid, SimpleHashSet.List, SimpleHashSet.Lookup, Filter, SimpleHashSet.AtStart, SetBuilds.Misses;
    hide SimpleHashSet.CursorAt;
    var adj := h.GetAdjacentNodes(v);
    ok, r, miss := SetBuilds.Exclude(vector, s, adj);
    FilterIsSetOperation(s.List(), h.model[v], false);
    InOwnRepr(r);
    r.StartsBeforeFirst();
  }

  lemma InOwnRepr(s: SimpleHashSet)
    requires s.Valid()
    ensures s in s.Repr
  {
  }

  /** `del_elem` of a member. */
  method Delete(vector: bool, s: SimpleHashSet, ghost S: set<Vertex>, v: Vertex)
    requires Lists(s, S) && v in S
    modifies s.Repr
    ensures Lists(s, S - {v}) && s.Repr == old(s.Repr)
  {
    hide SimpleHashSet.Valid, SimpleHashSet.List, SwapRemove;
    ghost var list := s.List();
    ListsSize(s, S);
    SetBuilds.DelElem(vector, s, v);
    SwapRemoveIsRemoval(list, v);
  }

  /** `add_elem` of a new member. */
  method Add(s: SimpleHashSet, ghost S: set<Vertex>, v: Vertex)
    requires Lists(s, S) && v !in S
    modifies s.Repr
    ensures Lists(s, S + {v}) && fresh(s.Repr - old(s.Repr))
  {
    hide SimpleHashSet.Valid, SimpleHashSet.List, SimpleHashSet.AtStart;
    ghost var list := s.List();
    s.AddElem(v);
    assert ToSet(list + [v]) == ToSet(list) + {v};
    assert v !in list;
  }

  method AddToList(s: SimpleHashSet, ghost S: set<Vertex>, v: Vertex, ghost S': set<Vertex>)
    requires Lists(s, S) && v !in S && S' == S + {v}
    modifies s.Repr
    ensures Lists(s, S') && fresh(s.Repr - old(s.Repr)) && s in s.Repr
  {
    Add(s, S, v);
    ListsOwn(s, S');
  }

  // --- the candidates ---

  /** The iterator of cand stands on position k, and K are the candidates behind it. */
  ghost predicate Queue(cand: SimpleHashSet, k: int, K: set<Vertex>)
    reads cand, cand.Repr
  {
    && cand.Valid() && !cand.isHashed && NoDups(cand.List())
    && cand.CursorAt(k) && -1 <= k < |cand.List()| && K == ToSet(cand.List()[k + 1..])
  }

  lemma StartQueue(cand: SimpleHashSet, K: set<Vertex>)
    requires Lists(cand, K) && cand.Valid() && cand.CursorAt(-1)
    ensures Queue(cand, -1, K)
  {
    assert cand.List()[0..] == cand.List();
  }

  lemma QueueOwn(cand: SimpleHashSet, k: int, K: set<Vertex>)
    requires Queue(cand, k, K)
    ensures cand in cand.Repr
  {
  }

  lemma TailMembers(cl: seq<Vertex>, i: nat)
    requires i < |cl| && NoDups(cl)
    ensures cl[i] in ToSet(cl[i..]) && ToSet(cl[i..]) - {cl[i]} == ToSet(cl[i + 1..])
    ensures ToSet(cl[i..]) == {cl[i]} <==> i + 1 == |cl|
  {
    assert cl[i..] == [cl[i]] + cl[i + 1..];
    assert cl[i] !in cl[i + 1..];
    if i + 1 < |cl| {
      assert cl[i + 1] == cl[i..][1];
      assert cl[i + 1] in ToSet(cl[i..]) && cl[i + 1] != cl[i];
    }
  }

  /** `get_next`: a candidate, or -1 when there are none. */
  method TakeNext(cand: SimpleHashSet, ghost k: int, ghost K: set<Vertex>) returns (v: int)
    requires Queue(cand, k, K)
    modifies cand.Repr
    ensures cand.Repr == old(cand.Repr) && (v == EMPTY_KEY <==> K == {})
    ensures if v == EMPTY_KEY then Queue(cand, k, K) else IsKey(v) && v in K && Queue(cand, k + 1, K - {v})
  {
    hide SimpleHashSet.Valid, SimpleHashSet.List, SimpleHashSet.CursorAt, ToSet, NoDups;
    ghost var list: seq<Vertex> := cand.List();
    v := cand.GetNext(k);
    if k + 1 < |list| {
      TailMembers(list, k + 1);
    } else {
      NothingBehind(list, k + 1);
    }
  }

  lemma NothingBehind(list: seq<Vertex>, i: nat)
    requires i == |list|
    ensures ToSet(list[i..]) == {}
  {
  }

  /** `end_iter` */
  method AtLast(cand: SimpleHashSet, ghost k: int, ghost K: set<Vertex>) returns (last: bool)
    requires Queue(cand, k, K)
    ensures last <==> K == {}
  {
    hide SimpleHashSet.Valid, SimpleHashSet.List, SimpleHashSet.CursorAt, ToSet, NoDups;
    ghost var list: seq<Vertex> := cand.List();
    last := cand.EndIter(k);
    if k + 1 < |list| {
      TailMembers(list, k + 1);
    } else {
      NothingBehind(list, k + 1);
    }
  }

  // --- the clique R ---

  /** s lists the elements of S, each once. */
  ghost predicate ListOf(s: seq<int>, S: set<Vertex>) {
    (forall i :: 0 <= i < |s| ==> IsKey(s[i])) && NoDups<Key>(s) && ToSet<Key>(s) == S
  }

  lemma ListOfSize(s: seq<int>, S: set<Vertex>)
    requires ListOf(s, S)
    ensures |s| == |S|
  {
    NoDupsSize<Key>(s);
  }

  lemma ListOfExtended(s: seq<int>, S: set<Vertex>, v: Vertex)
    requires ListOf(s, S) && v !in S
    ensures ListOf(s + [v], S + {v})
  {
    var t: seq<Key> := s;
    assert ToSet(t + [v]) == ToSet(t) + {v};
    assert v !in t;
  }

  /** R is the clique S, in the order in which its vertices were added. */
  ghost predicate IsList(R: UnrolledList, S: set<Vertex>)
    reads R, R.Repr
  {
    R.Valid() && ListOf(R.Elems(), S)
  }

  lemma IsListSize(R: UnrolledList, S: set<Vertex>)
    requires IsList(R, S)
    ensures R.Valid() && R in R.Repr && |R.Elems()| == |S|
  {
    ListOfSize(R.Elems(), S);
  }

  method Push(R: UnrolledList, ghost S: set<Vertex>, v: Vertex)
    requires IsList(R, S) && v !in S
    modifies R.Repr
    ensures IsList(R, S + {v}) && fresh(R.Repr - old(R.Repr)) && R.Elems() == old(R.Elems()) + [v]
  {
    hide UnrolledList.Valid, UnrolledList.Elems, ListOf;
    ListOfExtended(R.Elems(), S, v);
    R.PushBack(v);
  }

  method Pop(R: UnrolledList, ghost s: seq<int>, ghost v: int)
    requires R.Valid() && R.Elems() == s + [v]
    modifies R.Repr
    ensures R.Valid() && R.Repr == old(R.Repr) && R.Elems() == s
  {
    hide UnrolledList.Valid, UnrolledList.Elems;
    R.PopBack();
    assert (s + [v])[..|s + [v]| - 1] == s;
  }

  /** A longer copy, which shares no memory with R. */
  method CopyAndPush(R: UnrolledList, ghost S: set<Vertex>, v: Vertex) returns (copy: UnrolledList)
    requires IsList(R, S) && v !in S
    ensures IsList(copy, S + {v}) && fresh(copy.Repr) && copy in copy.Repr
  {
    hide UnrolledList.Valid, UnrolledList.Elems, ListOf;
    copy := new UnrolledList.Copy(R);
    Push(copy, S, v);
    IsListSize(copy, S + {v});
  }
}
