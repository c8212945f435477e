/**
 The set of the search: an unrolled list while it changes, a hash table once it is only searched.
 Membership tests on an unhashed set answer false, so operands on the right must be hashed.
 */
module HashSets {
  import opened Keys
  import opened FiniteSets
  import opened Lanes
  import opened Filters
  import opened Powers
  import opened Hopscotch
  import opened Vectors
  import opened UnrolledLists
  import opened HashTables

  class SimpleHashSet {
    var isHashed: bool
    var elems: UnrolledList
    var hashed_elems: SimpleHashTable
    ghost var Repr: set<object>

    /** The list and the table are sound and do not share memory. */
    ghost predicate Parts()
      reads this, Repr
    {
      && this in Repr && elems in Repr && hashed_elems in Repr && hashed_elems.slots in Repr
      && elems.Repr <= Repr && this !in elems.Repr && {hashed_elems, hashed_elems.slots} !! elems.Repr
      && elems.Valid() && hashed_elems.Valid()
      && (forall i :: 0 <= i < |elems.Elems()| ==> IsKey(elems.Elems()[i]))
    }

    ghost predicate Valid()
      reads this, Repr
      ensures Valid() ==> this in Repr
    {
      Parts() && if isHashed then elems.Elems() == [] else hashed_elems.Keys() == {}
    }

    /** The list of an unhashed set. */
    ghost function List(): seq<Key>
      reads this, Repr
      requires Valid()
    {
      elems.Elems()
    }

    /** The members. */
    ghost function Set(): set<Key>
      reads this, Repr
      requires Valid()
    {
      if isHashed then hashed_elems.Keys() else ToSet(List())
    }

    /** What a membership test sees. */
    ghost function Lookup(): set<Key>
      reads this, Repr
      requires Valid()
    {
      if isHashed then hashed_elems.Keys() else {}
    }

    /** The iterator has not been started. */
    ghost predicate AtStart()
      reads this, Repr
      requires Valid()
    {
      elems.iter == null
    }

    constructor ()
      ensures Valid() && fresh(Repr) && !isHashed && List() == []
      ensures AtStart()
    {
      isHashed := false;
      elems := new UnrolledList();
      hashed_elems := new SimpleHashTable();
      new;
      Repr := {this} + elems.Repr + hashed_elems.Repr();
    }

    method AddElem(el: Key)
      requires Valid() && !isHashed
      modifies Repr
      ensures Valid() && fresh(Repr - old(Repr)) && !isHashed
      ensures List() == old(List()) + [el]
      ensures old(AtStart()) ==> AtStart()
    {
      elems.PushBack(el);
      Repr := Repr + elems.Repr;
    }

    /** Nothing happens to a hashed set. */
    method DelElem(el: Key)
      requires Valid()
      modifies Repr
      ensures Valid() && Repr == old(Repr) && isHashed == old(isHashed)
      ensures if isHashed then Set() == old(Set()) else List() == SwapRemove(old(List()), el)
    {
      if !isHashed {
        elems.Remove(el);
      }
    }

    method Contains(el: Key) returns (r: bool)
      requires Valid()
      ensures r <==> el in Lookup()
    {
      r := false;
      if isHashed {
        r := hashed_elems.Contains(el);
      }
    }

    method Size() returns (n: nat)
      requires Valid()
      ensures n == if isHashed then |Set()| else |List()|
    {
      elems.Count();
      n := if isHashed then hashed_elems.num_of_elems else elems.num_of_elems;
    }

    method ForEach() returns (visited: seq<Key>)
      requires Valid()
      ensures isHashed ==> Enumerates(visited, Set())
      ensures !isHashed ==> visited == List()
    {
      if isHashed {
        visited := hashed_elems.ForEach();
      } else {
        visited := elems.ForEach();
      }
    }

    /** The iterator stands on element k of the list; -1 before the first. */
    ghost predicate CursorAt(k: int)
      reads this, Repr
      requires Valid()
    {
      elems.IterAt(k)
    }

    lemma StartsBeforeFirst()
      requires Valid() && AtStart()
      ensures CursorAt(-1)
    {
    }

    method GetNext(ghost k: int) returns (v: int)
      requires Valid() && !isHashed && CursorAt(k)
      modifies Repr
      ensures Valid() && Repr == old(Repr) && !isHashed && List() == old(List())
      ensures if k + 1 < |List()| then v == List()[k + 1] && CursorAt(k + 1) else v == EMPTY_KEY && CursorAt(k)
    {
      v := elems.GetNext(k);
    }

    method EndIter(ghost k: int) returns (r: bool)
      requires Valid() && !isHashed && CursorAt(k)
      ensures r <==> k + 1 == |List()|
    {
      r := elems.EndIter(k);
    }

    /** The first element of a list, or -1. */
    method GetFirst() returns (x: int)
      requires Valid()
      ensures x == if isHashed || List() == [] then -1 else List()[0]
    {
      elems.Count();
      if isHashed || elems.num_of_elems == 0 {
        return -1;
      }
      x := elems.Front();
    }

    /** Move one element from the list to the table. */
    method HashLast() returns (ok: bool)
      requires Parts() && elems.Elems() != [] && hashed_elems.capacity > 0
      requires |hashed_elems.Keys()| < hashed_elems.capacity
      modifies Repr
      ensures ok ==> Parts() && fresh(Repr - old(Repr))
      ensures ok ==> elems.Elems() == old(elems.Elems())[..|old(elems.Elems())| - 1]
      ensures ok ==> hashed_elems.Keys() == old(hashed_elems.Keys()) + {old(elems.Elems())[|old(elems.Elems())| - 1]}
      ensures ok ==> hashed_elems.capacity >= old(hashed_elems.capacity) && isHashed == old(isHashed)
      ensures |old(hashed_elems.Keys()) + {old(elems.Elems())[|old(elems.Elems())| - 1]}| <= 16 ==>
          ok && hashed_elems.capacity == old(hashed_elems.capacity)
      ensures !ok ==> hashed_elems.M_hash > 20
      ensures !ok ==>
          Explains(hashed_elems.failure,
            old(hashed_elems.Keys()) + {old(elems.Elems())[|old(elems.Elems())| - 1]}, hashed_elems.M_hash)
    {
      hide UnrolledList.Valid, SimpleHashTable.Valid, KeysOf, Explains;
      var last := elems.Back();
      assert IsKey(last);
      ok := hashed_elems.Insert(last);
      if ok {
        Repr := Repr + {hashed_elems.slots};
        elems.PopBack();
      }
    }

    method ReserveTable(size: nat) returns (ok: bool)
      requires Parts()
      modifies Repr
      ensures ok ==> Parts() && fresh(Repr - old(Repr)) && elems.Elems() == old(elems.Elems())
      ensures ok ==> hashed_elems.Keys() == {} && hashed_elems.capacity >= 2 * size && isHashed == old(isHashed)
      ensures ok <==> size <= Pow2(MAX_WIDTH - 1)
      ensures ok && size > 0 ==> hashed_elems.capacity == Pow2(WidthFor(size))
    {
      hide UnrolledList.Valid, SimpleHashTable.Valid, KeysOf, Pow2, WidthFor;
      ok := hashed_elems.Reserve(size);
      if size > 0 {
        ReservedCapacity(size);
      }
      if ok {
        Repr := Repr + {hashed_elems.slots};
      }
    }

    method SetHashed()
      requires Parts() && elems.Elems() == []
      modifies this`isHashed
      ensures Valid() && isHashed && Set() == old(hashed_elems.Keys()) && Repr == old(Repr)
    {
      isHashed := true;
    }

    /** Move all elements, the last one first. */
    method Drain(size: nat, ghost s: seq<Key>) returns (ok: bool)
      requires Parts() && hashed_elems.Keys() == {} && elems.Elems() == s && size == |s|
          && hashed_elems.capacity >= 2 * size
      modifies Repr
      ensures ok ==> Parts() && fresh(Repr - old(Repr)) && elems.Elems() == [] && isHashed == old(isHashed)
      ensures ok ==> hashed_elems.Keys() == ToSet(s)
      ensures |ToSet(s)| <= 16 ==> ok && hashed_elems.capacity == old(hashed_elems.capacity)
      ensures !ok ==> hashed_elems.M_hash > 20 && Explains(hashed_elems.failure, ToSet(s), hashed_elems.M_hash)
    {
      hide Parts, KeysOf, UnrolledList.Valid, SimpleHashTable.Valid, Explains;
      PartsFacts();
      assert s[|s|..] == [];
      for i := 0 to size
        invariant size == |s| && Parts() && fresh(Repr - old(Repr)) && isHashed == old(isHashed)
        invariant elems.Valid() && hashed_elems.Valid() && elems.Elems() == s[..size - i]
        invariant hashed_elems.capacity >= 2 * size
        invariant |ToSet(s)| <= 16 ==> hashed_elems.capacity == old(hashed_elems.capacity)
        invariant hashed_elems.Keys() == ToSet(s[size - i..]) && |hashed_elems.Keys()| <= i
      {
        TailSet(s, size - i);
        SubsetSize(ToSet(s[size - i - 1..]), ToSet(s));
        ghost var K := hashed_elems.Keys() + {s[size - i - 1]};
        ok := HashLast();
        if !ok {
          ExplainsMore(hashed_elems.failure, K, ToSet(s), hashed_elems.M_hash);
          return;
        }
        PartsFacts();
      }
      assert s[0..] == s;
      ok := true;
    }

    /**
     Drain the list into a table of at least twice its size. False stands for the process exiting: the
     list is too long for the widest table, or the attempts to insert one of its elements got stuck. The latter
     does not happen to at most 16 different elements.
     */
    method HashSet() returns (ok: bool)
      requires Valid()
      modifies Repr
      ensures ok ==> Valid() && fresh(Repr - old(Repr)) && isHashed && Set() == old(Set())
      ensures ok && !old(isHashed) && 0 < |old(List())| && |old(Set())| <= 16 ==>
          hashed_elems.capacity == Pow2(WidthFor(|old(List())|))
      ensures !ok ==>
          (hashed_elems.M_hash > 20 && |old(Set())| > 16
              && Explains(hashed_elems.failure, old(Set()), hashed_elems.M_hash))
          || |old(List())| > Pow2(MAX_WIDTH - 1)
    {
      hide Explains, UnrolledList.Valid, SimpleHashTable.Valid, KeysOf, Pow2;
      if isHashed {
        return true;
      }
      elems.Count();
      ghost var s := List();
      var size := elems.num_of_elems;
      ok := ReserveTable(size);
      if !ok {
        return;
      }
      ok := Drain(size, s);
      if !ok {
        return;
      }
      SetHashed();
      ok := true;
    }

    // --- set operations ---

    /** `intersect`: keep what the other set contains. */
    method Intersect(other: SimpleHashSet) returns (newSet: SimpleHashSet)
      requires Valid() && other.Valid()
      ensures newSet.Valid() && fresh(newSet.Repr) && !newSet.isHashed && newSet.AtStart()
      ensures !isHashed ==> newSet.List() == Filter(List(), other.Lookup(), true)
      ensures isHashed ==> NoDups(newSet.List()) && ToSet(newSet.List()) == Set() * other.Lookup()
    {
      hide Valid, AtStart, List, Set, Lookup, Filter, NoDups, ToSet, Enumerates;
      var visited := ForEach();
      if isHashed {
        EnumeratesItsSet<Key>(visited, Set());
        FilterIsSetOperation(visited, other.Lookup(), true);
      }
      newSet := new SimpleHashSet();
      ghost var S := other.Lookup();
      FilterEmpty(visited, S, true);
      for i := 0 to |visited|
        invariant newSet.Valid() && fresh(newSet.Repr) && !newSet.isHashed && newSet.AtStart()
        invariant newSet.List() == Filter(visited[..i], S, true)
      {
        FilterStep(visited, S, true, i);
        var b := other.Contains(visited[i]);
        if b {
          newSet.AddElem(visited[i]);
        }
      }
      assert visited[..|visited|] == visited;
    }

    /** `exclude`: keep what the other set does not contain. */
    method Exclude(other: SimpleHashSet) returns (newSet: SimpleHashSet)
      requires Valid() && other.Valid()
      ensures newSet.Valid() && fresh(newSet.Repr) && !newSet.isHashed && newSet.AtStart()
      ensures !isHashed ==> newSet.List() == Filter(List(), other.Lookup(), false)
      ensures isHashed ==> NoDups(newSet.List()) && ToSet(newSet.List()) == Set() - other.Lookup()
    {
      hide Valid, AtStart, List, Set, Lookup, Filter, NoDups, ToSet, Enumerates;
      var visited := ForEach();
      if isHashed {
        EnumeratesItsSet<Key>(visited, Set());
        FilterIsSetOperation(visited, other.Lookup(), false);
      }
      newSet := new SimpleHashSet();
      ghost var S := other.Lookup();
      FilterEmpty(visited, S, false);
      for i := 0 to |visited|
        invariant newSet.Valid() && fresh(newSet.Repr) && !newSet.isHashed && newSet.AtStart()
        invariant newSet.List() == Filter(visited[..i], S, false)
      {
        FilterStep(visited, S, false, i);
        var b := other.Contains(visited[i]);
        if !b {
          newSet.AddElem(visited[i]);
        }
      }
      assert visited[..|visited|] == visited;
    }

    method IntersectionSize(other: SimpleHashSet) returns (size: nat)
      requires Valid() && other.Valid()
      ensures !isHashed ==> size == |Filter(List(), other.Lookup(), true)|
      ensures isHashed ==> size == |Set() * other.Lookup()|
    {
      hide Valid, List, Set, Lookup, Filter, NoDups, ToSet, Enumerates;
      var visited := ForEach();
      if isHashed {
        EnumeratesItsSet<Key>(visited, Set());
        FilterSize(visited, other.Lookup());
      }
      size := 0;
      ghost var S := other.Lookup();
      FilterEmpty(visited, S, true);
      for i := 0 to |visited|
        invariant size == |Filter(visited[..i], S, true)|
      {
        FilterStep(visited, S, true, i);
        var b := other.Contains(visited[i]);
        if b {
          size := size + 1;
        }
      }
      assert visited[..|visited|] == visited;
    }

    // --- the vector build of the same operations ---

    /** What the vector lookup takes for members: `stray` is the memory behind the table's padding. */
    ghost function VectorKeys(stray: int): set<Key>
      reads this, Repr
      requires Valid()
    {
      hashed_elems.Keys() +
      if hashed_elems.capacity > 0 && IsKey(stray) && StrayHit(hashed_elems.cells, hashed_elems.Hashing(), stray, stray)
      then {stray} else {}
    }

    /** The stray word alone makes the lookup of a member of S go wrong. */
    ghost predicate Misleads(S: set<Key>, stray: int)
      reads this, Repr
      requires Valid()
    {
      IsKey(stray) && stray in S && stray !in Lookup() && stray in VectorKeys(stray)
    }

    /** `remove` on the vector build. Removing a key from its stale lane drops the last element instead. */
    method DelElemVector(el: Key)
      requires Valid()
      modifies Repr
      ensures Valid() && Repr == old(Repr) && isHashed == old(isHashed)
      ensures isHashed ==> Set() == old(Set())
      ensures !isHashed && (el in old(List()) || el !in old(elems.Stale())) ==> List() == SwapRemove(old(List()), el)
      ensures !isHashed && el !in old(List()) && el in old(elems.Stale()) ==>
          old(List()) != [] && List() == old(List())[..|old(List())| - 1]
    {
      if !isHashed {
        elems.RemoveVector(el);
      }
    }

    /** `contains` on the vector build. */
    method ContainsVector(el: Key, stray: int) returns (r: bool)
      requires Valid()
      ensures r <==> el in VectorKeys(stray)
    {
      UnhashedHasNone(stray);
      hide UnrolledList.Valid, SimpleHashTable.Valid, StrayHit, KeysOf, Home;
      r := false;
      if isHashed {
        var home := if hashed_elems.capacity > 0 then hashed_elems.HomeOf(el) else 0;
        r := hashed_elems.ContainsVector(el, home, stray);
      }
    }

    lemma UnhashedHasNone(stray: int)
      requires Valid()
      ensures !isHashed ==> VectorKeys(stray) == {}
    {
      hide UnrolledList.Valid, StrayHit;
      if !isHashed && hashed_elems.capacity > 0 && IsKey(stray) {
        NoKeysNoStray(hashed_elems.cells, hashed_elems.Hashing(), stray, stray);
      }
    }

    /** `exclude` on the vector build: the set is walked one by one, the lookups are vector ones. */
    method ExcludeVector(other: SimpleHashSet, stray: int) returns (newSet: SimpleHashSet)
      requires Valid() && other.Valid()
      ensures newSet.Valid() && fresh(newSet.Repr) && !newSet.isHashed && newSet.AtStart()
      ensures !isHashed ==> newSet.List() == Filter(List(), other.VectorKeys(stray), false)
      ensures isHashed ==> NoDups(newSet.List()) && ToSet(newSet.List()) == Set() - other.VectorKeys(stray)
    {
      hide Valid, AtStart, List, Set, Lookup, VectorKeys, Filter, NoDups, ToSet, Enumerates;
      var visited := ForEach();
      if isHashed {
        EnumeratesItsSet<Key>(visited, Set());
        FilterIsSetOperation(visited, other.VectorKeys(stray), false);
      }
      newSet := new SimpleHashSet();
      ghost var S := other.VectorKeys(stray);
      FilterEmpty(visited, S, false);
      for i := 0 to |visited|
        invariant newSet.Valid() && fresh(newSet.Repr) && !newSet.isHashed && newSet.AtStart()
        invariant newSet.List() == Filter(visited[..i], S, false)
      {
        FilterStep(visited, S, false, i);
        var b := other.ContainsVector(visited[i], stray);
        if !b {
          newSet.AddElem(visited[i]);
        }
      }
      assert visited[..|visited|] == visited;
    }

    method LookupBucket(v: Vector, mask: Mask, stray: int) returns (m: Mask)
      requires Valid() && forall l :: 0 <= l < 16 && mask[l] ==> IsKey(v[l])
      ensures forall l :: 0 <= l < 16 ==> (m[l] <==> mask[l] && v[l] in VectorKeys(stray))
    {
      hide UnrolledList.Valid, SimpleHashTable.Valid;
      m := hashed_elems.VectorLookup(v, mask, stray);
      hide StrayHit;
      hashed_elems.EmptyOrSized();
    }

    /** Sixteen list elements at a time; the lanes found are pushed in order. A hashed set has none to offer. */
    method IntersectVector(other: SimpleHashSet, stray: int) returns (newSet: SimpleHashSet)
      requires Valid() && other.Valid()
      ensures newSet.Valid() && fresh(newSet.Repr) && !newSet.isHashed && newSet.AtStart()
      ensures newSet.List() == Filter(List(), other.VectorKeys(stray), true) && (isHashed ==> newSet.List() == [])
    {
      hide Valid, Parts, List, Lookup, VectorKeys, AtStart, Filter, UnrolledList.Valid, UnrolledList.Chained;
      hide UnrolledList.Elems;
      ListFacts();
      ghost var s, S := List(), other.VectorKeys(stray);
      elems.HeadFacts();
      newSet := new SimpleHashSet();
      FilterEmpty(s, S, true);
      var pom := elems.head;
      ghost var b := 0;
      while pom != null
        invariant newSet.Valid() && fresh(newSet.Repr) && !newSet.isHashed && newSet.AtStart()
        invariant 0 <= b <= |elems.spine| && pom == if b < |elems.spine| then elems.spine[b] else null
        invariant newSet.List() == Filter(s[..Upto(16 * b, |s|)], S, true)
        decreases |elems.spine| - b
      {
        var load_vec, mask := elems.LoadBucket(pom, b);
        var found_mask := other.LookupBucket(load_vec, mask, stray);
        newSet.PushLanes(load_vec, found_mask, s, S, b);
        pom := elems.NextBucket(pom, b);
        b := b + 1;
      }
      elems.Covered();
      assert s[..|s|] == s;
    }

    /** Push the found lanes of bucket b onto this set. */
    method PushLanes(v: Vector, m: Mask, ghost s: seq<Key>, ghost S: set<Key>, ghost b: nat)
      requires Valid() && !isHashed && AtStart()
      requires forall l :: 0 <= l < 16 && 16 * b + l < |s| ==> v[l] == s[16 * b + l]
      requires forall l :: 0 <= l < 16 ==> (m[l] <==> 16 * b + l < |s| && s[16 * b + l] in S)
      requires List() == Filter(s[..Upto(16 * b, |s|)], S, true)
      modifies Repr
      ensures Valid() && fresh(Repr - old(Repr)) && !isHashed && AtStart()
      ensures List() == Filter(s[..Upto(16 * b + 16, |s|)], S, true)
    {
      hide Valid, List, AtStart, Filter;
      var i := 0;
      while i < VECTOR_SIZE
        invariant 0 <= i <= 16
        invariant Valid() && fresh(Repr - old(Repr)) && !isHashed && AtStart()
        invariant List() == Filter(s[..Upto(16 * b + i, |s|)], S, true)
        decreases 16 - i
      {
        if 16 * b + i < |s| {
          FilterStep(s, S, true, 16 * b + i);
        }
        if m[i] {
          AddElem(v[i]);
        }
        i := i + 1;
      }
    }

    method IntersectionSizeVector(other: SimpleHashSet, stray: int) returns (size: nat)
      requires Valid() && other.Valid()
      ensures size == |Filter(List(), other.VectorKeys(stray), true)| && (isHashed ==> size == 0)
    {
      hide Valid, Parts, List, Lookup, VectorKeys, AtStart, Filter, UnrolledList.Valid, UnrolledList.Chained;
      hide UnrolledList.Elems;
      ListFacts();
      ghost var s, S := List(), other.VectorKeys(stray);
      elems.HeadFacts();
      FilterEmpty(s, S, true);
      size := 0;
      var pom := elems.head;
      ghost var b := 0;
      while pom != null
        invariant 0 <= b <= |elems.spine| && pom == if b < |elems.spine| then elems.spine[b] else null
        invariant size == |Filter(s[..Upto(16 * b, |s|)], S, true)|
        decreases |elems.spine| - b
      {
        var load_vec, mask := elems.LoadBucket(pom, b);
        var found_mask := other.LookupBucket(load_vec, mask, stray);
        CountLanes(found_mask, s, S, b, 16);
        assert found_mask[..16] == found_mask;
        size := size + PopCount(found_mask);
        pom := elems.NextBucket(pom, b);
        b := b + 1;
      }
      elems.Covered();
      assert s[..|s|] == s;
    }

    /** The vector operations on a list agree with the scalar ones exactly when the stray word does not mislead them. */
    lemma VectorAgrees(s: seq<Key>, stray: int)
      requires Valid()
      ensures Filter(s, VectorKeys(stray), true) == Filter(s, Lookup(), true) <==> !Misleads(ToSet(s), stray)
      ensures |Filter(s, VectorKeys(stray), true)| == |Filter(s, Lookup(), true)| <==> !Misleads(ToSet(s), stray)
      ensures !Misleads(ToSet(s), stray) ==> Filter(s, VectorKeys(stray), false) == Filter(s, Lookup(), false)
    {
      UnhashedHasNone(stray);
      VectorKeepsMore(s, Lookup(), VectorKeys(stray));
      hide Filter, StrayHit, UnrolledList.Valid, SimpleHashTable.Valid;
      assert ToSet(s) !! VectorKeys(stray) - Lookup() <==> !Misleads(ToSet(s), stray);
      if !Misleads(ToSet(s), stray) {
        FilterAgrees(s, VectorKeys(stray), Lookup(), false);
      }
    }

    lemma NothingMisleads(stray: int)
      requires Valid()
      ensures !Misleads(ToSet([]), stray)
    {
    }

    /** The same for a walk over a hashed set. */
    lemma VectorDifference(S: set<Key>, stray: int)
      requires Valid()
      ensures S - VectorKeys(stray) == S - Lookup() <==> !Misleads(S, stray)
    {
      UnhashedHasNone(stray);
      hide StrayHit, UnrolledList.Valid, SimpleHashTable.Valid;
      if Misleads(S, stray) {
        assert stray in S - Lookup() && stray !in S - VectorKeys(stray);
      }
    }

    /** A stray word can only mislead lookups in a set of at least 16 members; and what it looks like. */
    lemma MisleadingNeedsSixteen(S: set<Key>, stray: int)
      requires Valid() && Misleads(S, stray)
      ensures isHashed && |Lookup()| >= 16
      ensures var m := Miss(hashed_elems.cells, hashed_elems.Hashing(), stray); IsMiss(m)
    {
      UnhashedHasNone(stray);
      hide UnrolledList.Valid, KeysOf, StrayHit;
      StrayNeedsSixteen(hashed_elems.cells, hashed_elems.Hashing(), stray, stray);
    }

    lemma ListFacts()
      requires Valid()
      ensures elems.Valid() && elems in Repr && elems.Repr <= Repr && List() == elems.Elems()
          && |elems.Elems()| == elems.num_of_elems && (isHashed ==> List() == [])
    {
      elems.Count();
    }

    lemma PartsFacts()
      requires Parts()
      ensures elems.Valid() && hashed_elems.Valid() && elems in Repr && elems.Repr <= Repr && hashed_elems in Repr
          && hashed_elems.slots in Repr
    {
    }
  }

  /** A lookup that went wrong: the table, its hash function, and the absent key that lies behind its padding. */
  datatype Miss = Miss(cells: seq<int>, h: Hash, el: int)

  const NO_MISS := Miss([], Hash(1, 0, 1), 0)

  ghost predicate IsMiss(m: Miss) {
    TableOk(m.cells, m.h) && IsKey(m.el) && m.el !in KeysOf(m.cells) && StrayHit(m.cells, m.h, m.el, m.el)
  }

  lemma {:induction false} CountLanes(m: Mask, s: seq<Key>, S: set<Key>, b: nat, i: nat)
    requires i <= 16 && forall l :: 0 <= l < 16 ==> (m[l] <==> 16 * b + l < |s| && s[16 * b + l] in S)
    ensures |Filter(s[..Upto(16 * b + i, |s|)], S, true)| ==
        |Filter(s[..Upto(16 * b, |s|)], S, true)| + PopCount(m[..i])
    decreases i
  {
    hide Filter;
    if i > 0 {
      CountLanes(m, s, S, b, i - 1);
      assert m[..i][..i - 1] == m[..i - 1];
      if 16 * b + i - 1 < |s| {
        FilterStep(s, S, true, 16 * b + i - 1);
      }
    }
  }

  function Upto(i: nat, n: nat): nat {
    if i < n then i else n
  }

  lemma TailSet(s: seq<Key>, j: nat)
    requires 1 <= j <= |s|
    ensures ToSet(s[j - 1..]) == ToSet(s[j..]) + {s[j - 1]}
    ensures s[..j][..j - 1] == s[..j - 1] && s[..j][j - 1] == s[j - 1]
    ensures |ToSet(s[j..]) + {s[j - 1]}| <= |ToSet(s[j..])| + 1
  {
    assert s[j - 1..] == [s[j - 1]] + s[j..];
  }

  lemma {:induction false} VectorKeepsMore(s: seq<Key>, scalar: set<Key>, vector: set<Key>)
    requires scalar <= vector
    ensures ToSet(s) !! vector - scalar ==> Filter(s, vector, true) == Filter(s, scalar, true)
    ensures !(ToSet(s) !! vector - scalar) ==> |Filter(s, vector, true)| > |Filter(s, scalar, true)|
    ensures |Filter(s, vector, true)| >= |Filter(s, scalar, true)|
    decreases |s|
  {
    if s != [] {
      var init := s[..|s| - 1];
      VectorKeepsMore(init, scalar, vector);
      assert s == init + [s[|s| - 1]];
      assert ToSet(s) == ToSet(init) + {s[|s| - 1]};
    }
  }
}
