/**
 The set operations of the search in both builds. On the vector build the word behind each table is
 arbitrary; an operation answers false when that word alone has made a lookup of a listed key go
 wrong, which the program itself would not notice. The model stops there.
 */
module SetBuilds {
  import opened Keys
  import opened FiniteSets
  import opened Filters
  import opened Hopscotch
  import opened Lanes
  import opened HashSets

  /** The vector build has met a lookup that the stray word alone makes go wrong. */
  ghost predicate Misses(vector: bool, miss: Miss) {
    vector && IsMiss(miss)
  }

  /** Whether the stray word makes the lookup of a visited key go wrong. */
  method Misled(visited: seq<Key>, other: SimpleHashSet, stray: int) returns (misled: bool)
    requires other.Valid()
    ensures misled <==> other.Misleads(ToSet(visited), stray)
  {
    hide SimpleHashSet.Valid, SimpleHashSet.Lookup, SimpleHashSet.VectorKeys;
    misled := false;
    if IsKey(stray) && stray in visited {
      var found := other.Contains(stray);
      var taken := other.ContainsVector(stray, stray);
      misled := taken && !found;
    }
  }

  /** What is behind the table while one operation looks up the visited keys. */
  method StrayWord(visited: seq<Key>, other: SimpleHashSet) returns (stray: int, ok: bool, ghost miss: Miss)
    requires other.Valid()
    ensures ok <==> !other.Misleads(ToSet(visited), stray)
    ensures !ok ==> IsMiss(miss) && |other.Lookup()| >= 16
  {
    hide SimpleHashSet.Valid, SimpleHashSet.Misleads, SimpleHashSet.Lookup, SimpleHashSet.VectorKeys, IsMiss;
    stray := *;
    var misled := Misled(visited, other, stray);
    ok, miss := !misled, NO_MISS;
    if misled {
      other.MisleadingNeedsSixteen(ToSet(visited), stray);
      miss := Miss(other.hashed_elems.cells, other.hashed_elems.Hashing(), stray);
    }
  }

  /** The elements that the vector operations load: those of the list. */
  method Listed(s: SimpleHashSet) returns (visited: seq<Key>)
    requires s.Valid()
    ensures visited == s.List() && (s.isHashed ==> visited == [])
  {
    visited := s.elems.ForEach();
  }

  /** A hashed set on the left: the scalar build walks its table, the vector build only its list, which is empty. */
  method Intersect(vector: bool, s: SimpleHashSet, other: SimpleHashSet)
    returns (ok: bool, newSet: SimpleHashSet, ghost miss: Miss)
    requires s.Valid() && other.Valid()
    ensures newSet.Valid() && fresh(newSet.Repr) && !newSet.isHashed && newSet.AtStart()
    ensures ok && !s.isHashed ==> newSet.List() == Filter(s.List(), other.Lookup(), true)
    ensures s.isHashed ==>
        ok && NoDups(newSet.List()) && ToSet(newSet.List()) == if vector then {} else s.Set() * other.Lookup()
    ensures !ok ==> Misses(vector, miss) && |other.Lookup()| >= 16
  {
    hide SimpleHashSet.Valid, SimpleHashSet.List, SimpleHashSet.Misleads, SimpleHashSet.Lookup, SimpleHashSet.Set;
    hide SimpleHashSet.VectorKeys;
    hide SimpleHashSet.AtStart, IsMiss, Filter;
    ok, miss := true, NO_MISS;
    if vector {
      var visited := Listed(s);
      var stray;
      stray, ok, miss := StrayWord(visited, other);
      other.VectorAgrees(s.List(), stray);
      other.NothingMisleads(stray);
      newSet := s.IntersectVector(other, stray);
    } else {
      newSet := s.Intersect(other);
    }
  }

  method Exclude(vector: bool, s: SimpleHashSet, other: SimpleHashSet)
    returns (ok: bool, newSet: SimpleHashSet, ghost miss: Miss)
    requires s.Valid() && other.Valid()
    ensures newSet.Valid() && fresh(newSet.Repr) && !newSet.isHashed && newSet.AtStart()
    ensures ok && !s.isHashed ==> newSet.List() == Filter(s.List(), other.Lookup(), false)
    ensures ok && s.isHashed ==> NoDups(newSet.List()) && ToSet(newSet.List()) == s.Set() - other.Lookup()
    ensures !ok ==> Misses(vector, miss) && |other.Lookup()| >= 16
  {
    hide SimpleHashSet.Valid, SimpleHashSet.List, SimpleHashSet.Misleads, SimpleHashSet.Lookup, SimpleHashSet.Set;
    hide SimpleHashSet.VectorKeys;
    hide SimpleHashSet.AtStart, IsMiss, Filter;
    ok, miss := true, NO_MISS;
    if vector {
      var visited := s.ForEach();
      if s.isHashed {
        EnumeratesItsSet<Key>(visited, s.Set());
      }
      var stray;
      stray, ok, miss := StrayWord(visited, other);
      other.VectorAgrees(visited, stray);
      other.VectorDifference(ToSet(visited), stray);
      newSet := s.ExcludeVector(other, stray);
    } else {
      newSet := s.Exclude(other);
    }
  }

  method IntersectionSize(vector: bool, s: SimpleHashSet, other: SimpleHashSet)
    returns (ok: bool, size: nat, ghost miss: Miss)
    requires s.Valid() && other.Valid()
    ensures ok && !s.isHashed ==> size == |Filter(s.List(), other.Lookup(), true)|
    ensures s.isHashed ==> ok && size == if vector then 0 else |s.Set() * other.Lookup()|
    ensures !ok ==> Misses(vector, miss) && |other.Lookup()| >= 16
  {
    hide SimpleHashSet.Valid, SimpleHashSet.List, SimpleHashSet.Misleads, SimpleHashSet.Lookup, SimpleHashSet.Set;
    hide SimpleHashSet.VectorKeys;
    hide IsMiss, Filter;
    ok, miss := true, NO_MISS;
    if vector {
      var visited := Listed(s);
      var stray;
      stray, ok, miss := StrayWord(visited, other);
      other.VectorAgrees(s.List(), stray);
      other.NothingMisleads(stray);
      size := s.IntersectionSizeVector(other, stray);
    } else {
      size := s.IntersectionSize(other);
    }
  }

  /** Removing a listed key, or one from a hashed set, is the same in both builds. */
  method DelElem(vector: bool, s: SimpleHashSet, el: Key)
    requires s.Valid() && (s.isHashed || el in s.List())
    modifies s.Repr
    ensures s.Valid() && s.Repr == old(s.Repr) && s.isHashed == old(s.isHashed)
    ensures if s.isHashed then s.Set() == old(s.Set()) else s.List() == SwapRemove(old(s.List()), el)
  {
    if vector {
      s.DelElemVector(el);
    } else {
      s.DelElem(el);
    }
  }
}
