/**
 The hopscotch hash table over an array of slots with 15 padding lanes. Growing a table past
 2^30 slots, and ten unsuccessful attempts, both end the process in the source; here they make
 the operation answer false.
 */
module HashTables {
  import opened Keys
  import opened Powers
  import opened Hopscotch
  import opened Vectors
  import opened FiniteSets

  /** The next slot, around the end. */
  function NextSlot(pos: nat, cap: nat): (next: nat)
    requires pos < cap
    ensures next == if pos + 1 == cap then 0 else pos + 1
  {
    (pos + 1) % cap
  }

  /** A table in which an attempt got stuck. */
  datatype Attempt = Attempt(cells: seq<int>, h: Hash)

  /** The key that a process has failed to insert, and the tables in which its attempts got stuck. */
  datatype Failure = Failure(el: Key, tables: seq<Attempt>)

  ghost predicate StuckIn(a: Attempt, el: Key, K: set<Key>) {
    && TableOk(a.cells, a.h) && el !in KeysOf(a.cells) && KeysOf(a.cells) + {el} <= K
    && Stuck(a.cells, a.h, el)
  }

  /** Every attempt got stuck, each in a table at least four times as large as the one before. */
  ghost predicate GaveUp(f: Failure, K: set<Key>) {
    && f.tables != [] && (forall i :: 0 <= i < |f.tables| ==> StuckIn(f.tables[i], f.el, K))
    && forall i :: 0 <= i < |f.tables| - 1 ==> f.tables[i + 1].h.width >= f.tables[i].h.width + 2
  }

  /** Why a key of K could not be inserted: ten attempts got stuck, or one did and the table cannot grow any more. */
  ghost predicate Explains(f: Failure, K: set<Key>, width: nat) {
    GaveUp(f, K) && (|f.tables| == 10 || width == MAX_WIDTH)
  }

  lemma ExplainsMore(f: Failure, K: set<Key>, K': set<Key>, width: nat)
    requires Explains(f, K, width) && K <= K'
    ensures Explains(f, K', width)
  {
    hide TableOk, KeysOf, Stuck;
  }

  lemma FirstAttempt(s: seq<int>, h: Hash, el: Key, K: set<Key>)
    requires TableOk(s, h) && Stuck(s, h, el) && el !in KeysOf(s) && KeysOf(s) + {el} <= K
    ensures GaveUp(Failure(el, [Attempt(s, h)]), K)
  {
    hide TableOk, KeysOf, Stuck;
  }

  /** One more attempt, after a table that was at least four times smaller. */
  function OneMore(tables: seq<Attempt>, s: seq<int>, h: Hash): seq<Attempt> {
    tables + [Attempt(s, h)]
  }

  lemma AnotherAttempt(f: Failure, s: seq<int>, h: Hash, K: set<Key>)
    requires f.tables == [] || (GaveUp(f, K) && h.width >= f.tables[|f.tables| - 1].h.width + 2)
    requires TableOk(s, h) && Stuck(s, h, f.el) && f.el !in KeysOf(s) && KeysOf(s) + {f.el} <= K
    ensures GaveUp(Failure(f.el, OneMore(f.tables, s, h)), K)
  {
    hide TableOk, KeysOf, Stuck;
  }

  class SimpleHashTable {
    var slots: array<int>
    var capacity: nat
    var phys_capacity: nat
    var num_of_elems: nat
    var number_of_attempts: nat
    var a_hash: nat
    var b_hash: nat
    var M_hash: nat

    /** The slots without the padding. */
    ghost var cells: seq<int>
    /** Why the last insertion that failed did so. */
    ghost var failure: Failure

    function Hashing(): Hash
      reads this
    {
      Hash(a_hash, b_hash, M_hash)
    }

    ghost function Repr(): set<object>
      reads this
    {
      {this, slots}
    }

    ghost predicate Layout()
      reads this, slots
    {
      && slots.Length == phys_capacity && |cells| == capacity
      && (capacity == 0 ==> phys_capacity == 0)
      && (capacity > 0 ==>
          phys_capacity == capacity + VECTOR_SIZE - 1 && number_of_attempts == HS_BUCKET_SIZE
              && Shape(cells, Hashing()))
      && (forall i :: 0 <= i < capacity ==> slots[i] == cells[i])
      && (forall i :: capacity <= i < phys_capacity ==> slots[i] == INVAL_KEY)
    }

    ghost predicate Valid()
      reads this, slots
    {
      && Layout()
      && (capacity > 0 ==> TableOk(cells, Hashing()))
      && num_of_elems == |Keys()|
    }

    /** The abstract set. */
    ghost function Keys(): set<Key>
      reads this
    {
      KeysOf(cells)
    }

    constructor ()
      ensures Valid() && Keys() == {} && capacity == 0 && fresh(Repr())
    {
      slots := new int[0];
      capacity, phys_capacity, num_of_elems, number_of_attempts := 0, 0, 0, 0;
      a_hash, b_hash, M_hash := 1, 0, 1;
      cells, failure := [], Failure(0, []);
    }

    /** An arbitrary odd multiplier and an arbitrary offset. */
    static method Seeds() returns (a: nat, b: nat)
      ensures a % 2 == 1
    {
      var seedA: nat, seedB: nat := *, *;
      a, b := seedA, seedB;
      if a % 2 == 0 {
        a := a + 1;
      }
    }

    static method EmptySlots(n: nat) returns (a: array<int>)
      ensures fresh(a) && a.Length == n + VECTOR_SIZE - 1
      ensures forall i :: 0 <= i < a.Length ==> a[i] == if i < n then EMPTY_KEY else INVAL_KEY
    {
      a := new int[n + VECTOR_SIZE - 1](i => if i < n then EMPTY_KEY else INVAL_KEY);
    }

    /**
     An empty table for cap elements. For none the source shifts by the full width of a word, which is
     undefined; here such a table gets no slots.
     */
    method Reserve(cap: nat) returns (ok: bool)
      modifies this
      ensures ok <==> cap == 0 || WidthFor(cap) <= MAX_WIDTH
      ensures !ok ==> M_hash == old(M_hash)
      ensures ok ==> Valid() && fresh(slots) && Keys() == {}
      ensures ok ==> if cap == 0 then capacity == 0 else capacity == Pow2(WidthFor(cap)) && M_hash == WidthFor(cap)
    {
      hide Pow2, WidthFor, KeysOf, TableOk;
      if cap == 0 {
        DropSlots();
        return true;
      }
      var width := WidthFor(cap);
      if width > MAX_WIDTH {
        return false;
      }
      ReservedCapacity(cap);
      capacity, num_of_elems := Pow2(width), 0;
      phys_capacity, number_of_attempts := capacity + VECTOR_SIZE - 1, HS_BUCKET_SIZE;
      a_hash, b_hash := Seeds();
      M_hash := width;
      slots := EmptySlots(capacity);
      cells := seq(capacity, _ => EMPTY_KEY);
      EmptyTable(cells, Hashing());
      ok := true;
    }

    method DropSlots()
      modifies this
      ensures Valid() && fresh(slots) && Keys() == {} && capacity == 0
    {
      slots := new int[0];
      capacity, phys_capacity, num_of_elems, number_of_attempts := 0, 0, 0, 0;
      cells := [];
    }

    lemma EmptyTable(s: seq<int>, h: Hash)
      requires ValidHash(h) && |s| == Pow2(h.width) && forall i :: 0 <= i < |s| ==> s[i] == EMPTY_KEY
      ensures Shape(s, h) && TableOk(s, h) && KeysOf(s) == {}
    {
    }

    /** Write one slot. */
    method Put(pos: nat, x: int)
      requires Layout() && pos < capacity && IsKey(x)
      modifies this`cells, slots
      ensures Layout() && cells == old(cells)[pos := x]
    {
      slots[pos] := x;
      cells := cells[pos := x];
    }

    lemma Size()
      requires Layout() && capacity > 0
      ensures |cells| == capacity == Pow2(M_hash) && 1 <= M_hash <= MAX_WIDTH
      ensures forall i :: 0 <= i < capacity ==> cells[i] == EMPTY_KEY || IsKey(cells[i])
    {
    }

    /** Probe forward from the home of el to el itself or the first empty slot. */
    method Probe(el: Key) returns (pos: nat, init_pos: nat, found: bool)
      requires Valid() && capacity > 0 && |Keys()| < capacity
      ensures init_pos == Home(Hashing(), el) < capacity && pos < capacity
      ensures found <==> el in Keys()
      ensures !found ==> cells[pos] == EMPTY_KEY && NoGap(cells, init_pos, pos)
    {
      hide Home, TableOk, Shape, Passed, NoGap, NextSlot;
      Size();
      HomeInRange(Hashing(), el);
      pos := Home(Hashing(), el);
      init_pos := pos;
      NothingPassed(cells, init_pos, el);
      var i := 0;
      while i < capacity && slots[pos] != EMPTY_KEY
        invariant i <= capacity && pos < capacity && Passed(cells, init_pos, i, el)
        invariant i < capacity ==> Dist(pos, init_pos, capacity) == i
        decreases capacity - i
      {
        if slots[pos] == el {
          assert cells[pos] == el;
          found := true;
          return;
        }
        ghost var next := PassOne(cells, init_pos, i, el, pos);
        pos := NextSlot(pos, capacity);
        i := i + 1;
      }
      NotAllPassed(cells, Hashing(), init_pos, el);
      EmptyMeansAbsent(cells, Hashing(), el, pos);
      found := false;
    }

    method CountOneMore()
      requires Layout()
      modifies `num_of_elems
      ensures Layout() && num_of_elems == old(num_of_elems) + 1
    {
      num_of_elems := num_of_elems + 1;
    }

    /** Look in the 15 slots before `pos`, the farthest first, for a key that may live at `pos`. */
    method FindHop(pos: nat) returns (found: bool, j: nat)
      requires Layout() && pos < capacity && capacity > HS_BUCKET_SIZE
      ensures found ==>
          j < capacity && 1 <= Dist(pos, j, capacity) <= 15 && Dist(pos, Home(Hashing(), cells[j]), capacity) <= 15
      ensures found ==> forall i :: 0 <= i < capacity && Dist(pos, j, capacity) < Dist(pos, i, capacity) <= 15 ==>
          Dist(pos, Home(Hashing(), cells[i]), capacity) > 15
      ensures !found ==> forall i :: 0 <= i < capacity && 1 <= Dist(pos, i, capacity) <= 15 ==>
          Dist(pos, Home(Hashing(), cells[i]), capacity) > 15
    {
      hide Home, Shape, NextSlot;
      Size();
      var start: int := pos - HS_BUCKET_SIZE + 1;
      if start < 0 {
        start := start + capacity;
      }
      j := start;
      while j != pos
        invariant j < capacity && Dist(pos, j, capacity) <= 15
        invariant forall i :: 0 <= i < capacity && Dist(pos, j, capacity) < Dist(pos, i, capacity) <= 15 ==>
            Dist(pos, Home(Hashing(), cells[i]), capacity) > 15
        decreases Dist(pos, j, capacity)
      {
        assert slots[j] == cells[j];
        if Dist(pos, Home(Hashing(), slots[j]), capacity) <= HS_BUCKET_SIZE - 1 {
          return true, j;
        }
        j := NextSlot(j, capacity);
      }
      found := false;
    }

    /**
     One attempt to insert el. The displacements that it makes are determined by the table: if they end
     close enough to the home of el it succeeds, and if they get stuck it rebuilds the table and fails,
     or (ok is false) the process exits during the rebuild.
     */
    method TryInsert(el: Key) returns (ok: bool, success: bool)
      requires Valid() && capacity > 0 && |Keys()| < capacity
      modifies this, slots
      ensures ok ==> Valid() && (slots == old(slots) || fresh(slots))
      ensures ok && success ==> Keys() == old(Keys()) + {el} && capacity == old(capacity) && Hashing() == old(Hashing())
      ensures el in old(Keys()) ==> cells == old(cells)
      ensures ok && success && el !in old(Keys()) ==> Lands(old(cells), old(Hashing()), el, cells)
      ensures ok && success <==> el in old(Keys()) || !Stuck(old(cells), old(Hashing()), el)
      ensures ok && !success ==> Keys() == old(Keys()) && capacity >= 2 * old(capacity) && M_hash > old(M_hash)
      ensures |old(Keys()) + {el}| <= 16 ==> ok && success
      ensures !ok ==> M_hash > 20 && Explains(failure, old(Keys()) + {el}, M_hash)
      decreases MAX_WIDTH + 1 - M_hash, 1
    {
      hide Home, TableOk, Shape, NoGap, Displaced, KeysOf, Stuck, Lands, Explains;
      var pos: nat, init_pos: nat, found: bool := Probe(el);
      ghost var keys, was := Keys(), cells;
      if found {
        assert keys + {el} == keys;
        return true, true;
      }
      ProbeLength(cells, Hashing(), init_pos, pos);
      var near;
      ghost var path;
      near, pos, path := MoveHole(el, pos, init_pos);
      Size();
      if !near {
        AbandonedKeys(cells, Hashing(), init_pos, pos, keys);
        StuckHere(was, Hashing(), el, path);
        FirstAttempt(was, Hashing(), el, keys + {el});
        ok := Reconstruct(Failure(el, [Attempt(was, Hashing())]), keys + {el});
        return ok, false;
      }
      Land(cells, Hashing(), init_pos, pos, keys, el);
      LandsHere(was, Hashing(), el, path);
      Put(pos, el);
      CountOneMore();
      ok, success := true, true;
    }

    /** Move the free slot towards the home of el, one displacement after the other. */
    method MoveHole(el: Key, free: nat, init_pos: nat) returns (near: bool, pos: nat, ghost path: seq<Hole>)
      requires Valid() && capacity > 0 && |Keys()| < capacity
      requires free < capacity && init_pos == Home(Hashing(), el) < capacity
      requires cells[free] == EMPTY_KEY && NoGap(cells, init_pos, free)
      requires Dist(free, init_pos, capacity) <= |Keys()|
      modifies this`cells, slots
      ensures Layout() && pos < capacity
      ensures Displaced(cells, Hashing(), init_pos, pos, old(Keys()))
      ensures Chain(old(cells), Hashing(), el, path) && End(path) == Hole(cells, pos)
      ensures near <==> Dist(pos, init_pos, capacity) < HS_BUCKET_SIZE
      ensures !near ==> NothingMoves(End(path), Hashing()) && |old(Keys())| >= HS_BUCKET_SIZE
    {
      hide Home, TableOk, Shape, NoGap, Displaced, KeysOf, Chain, Displaces, NothingMoves;
      Size();
      pos := free;
      StartDisplacement(cells, Hashing(), init_pos, pos);
      StartChain(cells, Hashing(), el, pos);
      path := [Hole(cells, pos)];
      while Dist(pos, init_pos, capacity) >= HS_BUCKET_SIZE
        invariant Layout() && pos < capacity && Displaced(cells, Hashing(), init_pos, pos, old(Keys()))
        invariant path != [] && Chain(old(cells), Hashing(), el, path) && End(path) == Hole(cells, pos)
        invariant Dist(pos, init_pos, capacity) <= |old(Keys())|
        decreases Dist(pos, init_pos, capacity)
      {
        Size();
        var hop, j := FindHop(pos);
        if !hop {
          assert NothingMoves(End(path), Hashing()) by {
            NoneMovable(cells, Hashing(), pos);
          }
          return false, pos, path;
        }
        FarthestMoves(cells, Hashing(), pos, j);
        Hop(cells, Hashing(), init_pos, pos, old(Keys()), j);
        ghost var next := Hole(cells[pos := cells[j]], j);
        ExtendChain(old(cells), Hashing(), el, path, next);
        path := path + [next];
        Put(pos, slots[j]);
        pos := j;
      }
      near := true;
    }

    /** Rebuild with twice the capacity and a new hash function; what is stored twice is kept once. */
    method Reconstruct(ghost why: Failure, ghost K: set<Key>) returns (ok: bool)
      requires Layout() && capacity > 0 && |KeysOf(cells)| < capacity && KeysOf(cells) <= K && GaveUp(why, K)
      modifies this
      ensures ok ==> Valid() && fresh(slots) && Keys() == KeysOf(old(cells))
      ensures ok ==> capacity >= 2 * old(capacity) && M_hash > old(M_hash)
      ensures |KeysOf(old(cells))| <= 16 && old(M_hash) < MAX_WIDTH ==> ok && capacity == 2 * old(capacity)
      ensures !ok ==> M_hash > 20 && Explains(failure, K, M_hash)
      decreases MAX_WIDTH + 1 - M_hash, 0
    {
      hide Home, TableOk, Shape, KeysOf, GaveUp;
      var oldArray := slots;
      ghost var was := cells;
      Size();
      ReserveDoubles(M_hash);
      ok := Reserve(capacity);
      if ok {
        ok := Refill(oldArray, was);
        if !ok {
          ExplainsMore(failure, KeysOf(was), K, M_hash);
        }
      } else {
        failure := why;
      }
    }

    /** Insert every key of the old array, in slot order; its padding is skipped. */
    method Refill(oldArray: array<int>, ghost was: seq<int>) returns (ok: bool)
      requires Valid() && Keys() == {} && oldArray != slots && capacity > 0
      requires |KeysOf(was)| < |was| <= oldArray.Length && 2 * |was| <= capacity
      requires forall q :: 0 <= q < |was| ==> oldArray[q] == was[q] && (was[q] == EMPTY_KEY || IsKey(was[q]))
      requires forall q :: |was| <= q < oldArray.Length ==> oldArray[q] == INVAL_KEY
      modifies this, slots
      ensures ok ==> Valid() && (slots == old(slots) || fresh(slots)) && Keys() == KeysOf(was)
      ensures ok ==> capacity >= old(capacity) && M_hash >= old(M_hash)
      ensures |KeysOf(was)| <= 16 ==> ok && capacity == old(capacity)
      ensures !ok ==> M_hash > 20 && Explains(failure, KeysOf(was), M_hash)
      decreases MAX_WIDTH + 1 - M_hash, 4
    {
      Size();
      hide Home, TableOk, Shape, KeysOf, Valid, Layout, Keys, Explains;
      NoKeys(was);
      var old_capac := oldArray.Length;
      var i := 0;
      while i < old_capac
        invariant i <= old_capac
        invariant forall q :: 0 <= q < |was| ==> oldArray[q] == was[q]
        invariant forall q :: |was| <= q < old_capac ==> oldArray[q] == INVAL_KEY
        invariant Valid() && (slots == old(slots) || fresh(slots)) && capacity >= old(capacity) && M_hash >= old(M_hash)
        invariant Keys() == KeysOf(was[..if i < |was| then i else |was|])
        invariant |KeysOf(was)| <= 16 ==> capacity == old(capacity)
        decreases old_capac - i
      {
        if oldArray[i] != EMPTY_KEY && oldArray[i] != INVAL_KEY {
          MoreKeys(was, i);
          PrefixKeys(was, i + 1);
          ok := Reinsert(oldArray[i], KeysOf(was));
          if !ok {
            return;
          }
        } else if i < |was| {
          SameKeys(was, i);
        }
        i := i + 1;
      }
      assert was[..|was|] == was;
      ok := true;
    }

    /** Insert one of the keys K. */
    method Reinsert(el: Key, ghost K: set<Key>) returns (ok: bool)
      requires Valid() && capacity > 0 && |Keys()| < capacity && Keys() + {el} <= K
      modifies this, slots
      ensures ok ==> Valid() && (slots == old(slots) || fresh(slots)) && Keys() == old(Keys()) + {el}
      ensures ok ==> capacity >= old(capacity) && M_hash >= old(M_hash)
      ensures |K| <= 16 ==> ok && capacity == old(capacity)
      ensures !ok ==> M_hash > 20 && Explains(failure, K, M_hash)
      decreases MAX_WIDTH + 1 - M_hash, 3
    {
      hide KeysOf, Valid, Explains, Stuck, Lands;
      ghost var more := Keys() + {el};
      SubsetSize(more, K);
      ok := Insert(el);
      if !ok {
        ExplainsMore(failure, more, K, M_hash);
      }
    }

    /**
     Up to ten attempts, each failed one followed by another rebuild. The first one succeeds, and the
     table keeps its size, exactly if el is there already or the displacements do not get stuck; with up
     to 16 keys they never do. A failure is explained by ten attempts that got stuck, or by a table of 2^30 slots.
     */
    method Insert(el: Key) returns (ok: bool)
      requires Valid() && capacity > 0 && |Keys()| < capacity
      modifies this, slots
      ensures ok ==> Valid() && (slots == old(slots) || fresh(slots))
      ensures ok ==> Keys() == old(Keys()) + {el}
      ensures ok ==> capacity >= old(capacity) && M_hash >= old(M_hash)
      ensures ok && capacity == old(capacity) <==> el in old(Keys()) || !Stuck(old(cells), old(Hashing()), el)
      ensures el in old(Keys()) ==> cells == old(cells)
      ensures ok && capacity == old(capacity) && el !in old(Keys()) ==> Lands(old(cells), old(Hashing()), el, cells)
      ensures |old(Keys()) + {el}| <= 16 ==> ok && capacity == old(capacity)
      ensures !ok ==> M_hash > 20 && Explains(failure, old(Keys()) + {el}, M_hash)
      decreases MAX_WIDTH + 1 - M_hash, 2
    {
      var nAttempts := 10;
      var cnt := 0;
      ghost var K, why := Keys() + {el}, Failure(el, []);
      hide Home, TableOk, Shape, KeysOf, Valid, Layout, Stuck, Lands, GaveUp;
      Rebuildable();
      while cnt < nAttempts
        invariant 0 <= cnt <= nAttempts && M_hash >= old(M_hash) + 2 * cnt
        invariant if cnt == 0 then cells == old(cells) && Hashing() == old(Hashing()) && capacity == old(capacity)
            else capacity > old(capacity) && |K| > 16 && el !in old(Keys()) && Stuck(old(cells), old(Hashing()), el)
        invariant Valid() && (slots == old(slots) || fresh(slots)) && Keys() == old(Keys()) && capacity > 0
        invariant why.el == el && |why.tables| == cnt
        invariant cnt > 0 ==> GaveUp(why, K) && M_hash >= why.tables[cnt - 1].h.width + 2
        decreases nAttempts - cnt
      {
        Rebuildable();
        ghost var before := Attempt(cells, Hashing());
        var success;
        ok, success := TryInsert(el);
        if !ok || success {
          return;
        }
        AnotherAttempt(why, before.cells, before.h, K);
        why := Failure(el, OneMore(why.tables, before.cells, before.h));
        Rebuildable();
        ok := Reconstruct(why, K);
        if !ok {
          return;
        }
        cnt := cnt + 1;
      }
      Rebuildable();
      failure := why;
      ok := false;
    }

    lemma Rebuildable()
      requires Valid() && capacity > 0
      ensures Layout() && 1 <= M_hash <= MAX_WIDTH && TableOk(cells, Hashing())
    {
    }

    // --- lookup ---

    lemma EmptyOrSized()
      requires Valid()
      ensures num_of_elems == 0 <==> Keys() == {}
      ensures num_of_elems > 0 ==> capacity > 0
    {
    }

    /** The scalar lookup: at most 16 slots from the home, stopping at an empty one. */
    method Contains(el: Key) returns (found: bool)
      requires Valid()
      ensures found <==> el in Keys()
    {
      hide Home, TableOk, Shape, Passed, NoGap, NextSlot;
      EmptyOrSized();
      found := false;
      if num_of_elems == 0 {
        return;
      }
      Size();
      HomeInRange(Hashing(), el);
      var pos: nat := Home(Hashing(), el);
      ghost var init_pos := pos;
      NothingPassed(cells, init_pos, el);
      var i := 0;
      while i < number_of_attempts
        invariant i <= number_of_attempts && pos < capacity && Passed(cells, init_pos, i, el)
        invariant i < capacity ==> Dist(pos, init_pos, capacity) == i
        decreases number_of_attempts - i
      {
        if slots[pos] == el {
          assert cells[pos] == el;
          return true;
        }
        if slots[pos] == EMPTY_KEY {
          PassedEmpty(cells, Hashing(), el, pos, i);
          return false;
        }
        PassAnother(cells, init_pos, i, el, pos);
        pos := NextSlot(pos, capacity);
        i := i + 1;
      }
      PassedAll(cells, Hashing(), el);
    }

    /** Read 16 lanes of the array from `pos`; `stray` stands for the memory behind the array. */
    method LoadLanes(pos: nat, stray: int) returns (v: Vector)
      requires Layout() && capacity > 0 && pos <= capacity
      ensures v == Load(cells, pos, stray)
    {
      v := seq(16, i requires 0 <= i < 16 reads this, slots requires Layout() =>
        if pos + i < phys_capacity then slots[pos + i] else stray);
    }

    function HomeOf(el: Key): nat
      reads this
      requires M_hash <= 32
    {
      Home(Hashing(), el)
    }

    /** The vector lookup is right unless the lane behind the padding happens to hold el. */
    method ContainsVector(el: Key, home: nat, stray: int) returns (found: bool)
      requires Valid() && (capacity > 0 ==> home == Home(Hashing(), el))
      ensures capacity == 0 ==> !found && el !in Keys()
      ensures capacity > 0 ==> (found <==> el in Keys() || StrayHit(cells, Hashing(), el, stray))
    {
      hide Home, TableOk, Shape, Load, Loaded, StrayHit, KeysOf;
      EmptyOrSized();
      found := false;
      if num_of_elems == 0 {
        if capacity > 0 {
          Size();
          NoKeysNoStray(cells, Hashing(), el, stray);
        }
        return;
      }
      Size();
      TwoLoads(cells, Hashing(), el, stray);
      var pos := home;
      var i := 0;
      while i < number_of_attempts / VECTOR_SIZE + 1
        invariant 0 <= i <= 2 && 0 <= pos <= capacity
        invariant i < 2 ==> pos == if i == 0 then home else SecondLoad(home, capacity)
        invariant i >= 1 ==> !Loaded(cells, home, stray, el) && !Loaded(cells, home, stray, EMPTY_KEY)
        invariant i == 2 ==> !Loaded(cells, SecondLoad(home, capacity), stray, el)
        decreases 2 - i
      {
        var elem_vec := LoadLanes(pos, stray);
        AnyLane(cells, pos, stray, el);
        AnyLane(cells, pos, stray, EMPTY_KEY);
        if Any(CmpEq(elem_vec, el)) {
          return true;
        }
        if Any(CmpEq(elem_vec, EMPTY_KEY)) {
          return false;
        }
        pos := pos + VECTOR_SIZE;
        if pos > capacity {
          pos := 0;
        }
        i := i + 1;
      }
    }

    /**
     Sixteen lookups at once: a gather at the homes settles most lanes, the others are looked up one
     by one. The lanes that the mask switches off may hold anything.
     */
    method VectorLookup(el_vector: Vector, mask: Mask, stray: int) returns (m: Mask)
      requires Valid() && forall i :: 0 <= i < 16 && mask[i] ==> IsKey(el_vector[i])
      ensures capacity == 0 ==> forall i :: 0 <= i < 16 ==> !m[i]
      ensures capacity > 0 ==> forall i :: 0 <= i < 16 ==>
        (m[i] <==> mask[i] && (el_vector[i] in Keys() || StrayHit(cells, Hashing(), el_vector[i], stray)))
    {
      hide Home, TableOk, Shape, KeysOf, StrayHit, Layout;
      m := seq(16, _ => false);
      EmptyOrSized();
      if num_of_elems == 0 {
        if capacity > 0 {
          forall i | 0 <= i < 16 && mask[i] ensures !StrayHit(cells, Hashing(), el_vector[i], stray) {
            Size();
            NoKeysNoStray(cells, Hashing(), el_vector[i], stray);
          }
        }
        return;
      }
      var i := 0;
      while i < VECTOR_SIZE
        invariant 0 <= i <= 16
        invariant forall l :: 0 <= l < i ==>
          (m[l] <==> mask[l] && (el_vector[l] in Keys() || StrayHit(cells, Hashing(), el_vector[l], stray)))
        invariant forall l :: i <= l < 16 ==> !m[l]
        decreases 16 - i
      {
        if mask[i] {
          var found := LookupLane(el_vector[i], stray);
          m := m[i := found];
        }
        i := i + 1;
      }
    }

    /** One enabled lane: the gathered home slot decides, unless it holds some other key. */
    method LookupLane(el: Key, stray: int) returns (found: bool)
      requires Valid() && capacity > 0
      ensures found <==> el in Keys() || StrayHit(cells, Hashing(), el, stray)
    {
      Size();
      HomeInRange(Hashing(), el);
      HomeSlot(cells, Hashing(), el, stray);
      hide Home, TableOk, Shape, StrayHit, KeysOf;
      var home := Home(Hashing(), el);
      var fetched := slots[home];
      if fetched == el {
        found := true;
      } else if fetched == EMPTY_KEY {
        found := false;
      } else {
        found := ContainsVector(el, home, stray);
      }
    }

    /** The array is the slots and the padding behind them. */
    lemma Readable()
      requires Valid()
      ensures |cells| == capacity <= phys_capacity == slots.Length && Distinct(cells)
      ensures forall i :: 0 <= i < capacity ==> slots[i] == cells[i] && (cells[i] == EMPTY_KEY || IsKey(cells[i]))
      ensures forall i :: capacity <= i < phys_capacity ==> slots[i] == INVAL_KEY
    {
      hide Placed, Home;
      if capacity > 0 {
        Size();
      }
    }

    /** The stored keys in slot order, as `for_each` hands them to its callback. */
    method ForEach() returns (visited: seq<Key>)
      requires Valid()
      ensures Enumerates<Key>(visited, Keys())
    {
      hide Home, TableOk, Shape, KeysOf, Enumerates, Distinct, Valid, Layout;
      visited := [];
      Readable();
      NoKeys(cells);
      EnumeratesNothing<Key>();
      var i := 0;
      while i < phys_capacity
        invariant 0 <= i <= phys_capacity
        invariant Enumerates<Key>(visited, KeysOf(cells[..if i < capacity then i else capacity]))
        decreases phys_capacity - i
      {
        if slots[i] != EMPTY_KEY && slots[i] != INVAL_KEY {
          MoreKeys(cells, i);
          NewKey(cells, i);
          visited := EnumerateOneMore<Key>(visited, KeysOf(cells[..i]), slots[i]);
        } else if i < capacity {
          SameKeys(cells, i);
        }
        i := i + 1;
      }
      assert cells[..capacity] == cells;
    }
  }

  lemma NewKey(s: seq<int>, i: nat)
    requires Distinct(s) && i < |s| && IsKey(s[i])
    ensures s[i] !in KeysOf(s[..i])
  {
  }

  lemma AnyLane(s: seq<int>, pos: nat, stray: int, x: int)
    requires pos <= |s|
    ensures Any(CmpEq(Load(s, pos, stray), x)) <==> Loaded(s, pos, stray, x)
  {
    var v := Load(s, pos, stray);
    assert forall l :: 0 <= l < 16 ==> (CmpEq(v, x)[l] <==> v[l] == x);
  }
}
