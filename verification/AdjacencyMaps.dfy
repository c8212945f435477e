/**
 A map from vertices to adjacency sets that share no memory: lists while the graph is built, and
 hash tables from then on.
 */
module AdjacencyMaps {
  import opened FiniteSets
  import opened Powers
  import opened Hopscotch
  import opened HashTables
  import opened HashSets
  import opened Cliques

  type SetMap = map<Vertex, SimpleHashSet>
  type Lists = map<Vertex, seq<Vertex>>

  /** The set of one vertex: a list, or already hashed. */
  ghost predicate Holds(s: SimpleHashSet, list: seq<Vertex>, hashed: bool, S: set<object>)
    reads S
  {
    && s in S && s.Repr <= S && s.Valid()
    && if hashed then s.isHashed && s.Set() == ToSet(list) else !s.isHashed && s.List() == list
  }

  /** The sets of m lie in S, share no memory, and contain `lists`; those of `done` are hashed. */
  ghost predicate Stored(m: SetMap, lists: Lists, done: set<Vertex>, S: set<object>)
    reads S
  {
    && m.Keys == lists.Keys
    && (forall v :: v in m ==> Holds(m[v], lists[v], v in done, S))
    && forall u, v :: u in m && v in m && u != v ==> m[u].Repr !! m[v].Repr
  }

  lemma StoredAt(m: SetMap, lists: Lists, done: set<Vertex>, S: set<object>, v: Vertex)
    requires Stored(m, lists, done, S) && v in lists
    ensures v in m && m[v] in S && m[v].Repr <= S && m[v].Valid()
    ensures if v in done then m[v].isHashed && m[v].Set() == ToSet(lists[v])
        else !m[v].isHashed && m[v].List() == lists[v]
  {
  }

  /** Sixteen different keys fit into their table whatever the hash function does with them. */
  ghost predicate Short(lists: Lists) {
    forall v :: v in lists ==> |ToSet(lists[v])| <= 16 && |lists[v]| <= Pow2(MAX_WIDTH - 1)
  }

  /**
   Why hashing a list fails: the attempts to insert one of more than 16 elements got stuck, ten of them in
   ever larger tables or the last in a table of 2^30 slots; or the list is too long for any table.
   */
  ghost predicate Outgrown(s: SimpleHashSet, list: seq<Vertex>)
    reads s, s.hashed_elems
  {
    (s.hashed_elems.M_hash > 20 && |ToSet(list)| > 16
        && Explains(s.hashed_elems.failure, ToSet(list), s.hashed_elems.M_hash))
    || |list| > Pow2(MAX_WIDTH - 1)
  }

  /** A new adjacency set, which takes its own memory S' along. */
  lemma StoreNew(m: SetMap, lists: Lists, S: set<object>, v: Vertex, s: SimpleHashSet)
    requires Stored(m, lists, {}, S) && v !in m && s.Valid() && !s.isHashed && s.Repr !! S
    ensures Stored(m[v := s], lists[v := s.List()], {}, S + s.Repr)
  {
    hide SimpleHashSet.Valid, SimpleHashSet.List, SimpleHashSet.Set;
  }

  /** Only the set of v changed. */
  method AddTo(m: SetMap, ghost lists: Lists, ghost S: set<object>, v: Vertex, w: Vertex)
    returns (ghost S': set<object>)
    requires Stored(m, lists, {}, S) && v in m
    modifies S
    ensures S <= S' && fresh(S' - S) && Stored(m, lists[v := lists[v] + [w]], {}, S')
  {
    hide SimpleHashSet.Valid, SimpleHashSet.List, SimpleHashSet.Set, SimpleHashSet.AtStart;
    m[v].AddElem(w);
    S' := S + m[v].Repr;
  }

  method HashOne(m: SetMap, ghost lists: Lists, ghost done: set<Vertex>, ghost S: set<object>, v: Vertex)
    returns (ok: bool, ghost S': set<object>)
    requires Stored(m, lists, done, S) && v in m && v !in done
    modifies S
    ensures ok ==> S <= S' && fresh(S' - S) && Stored(m, lists, done + {v}, S')
    ensures Short(lists) ==> ok
    ensures !ok ==> Outgrown(m[v], lists[v])
  {
    hide SimpleHashSet.Valid, SimpleHashSet.List, SimpleHashSet.AtStart;
    ok := m[v].HashSet();
    S' := S + m[v].Repr;
  }
}
