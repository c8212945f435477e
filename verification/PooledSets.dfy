/**
 Sets in the memory pool of a task: the chunk's count is the number of live pooled sets, so that no
 memory of a live set is released; and no pooled set is handed to another task.
 */
module PooledSets {
  import opened FiniteSets
  import opened Cliques
  import opened Roots
  import opened TaskPool
  import opened CompleteGraphs
  import opened MemChunks
  import PoolRuns

  /** The sets that a call on (P, X) makes are pooled: `--mem-thresh`. */
  predicate Small(mem: int, P: set<Vertex>, X: set<Vertex>) {
    |P| + |X| < mem
  }

  // --- which thresholds keep pooled sets inside their task ---

  /** The call t with pivot u, after the candidates D have moved from P to X, takes the candidate v to the call c. */
  ghost predicate Descend(g: Adjacency, t: Task, u: Vertex, D: set<Vertex>, v: Vertex, c: Task) {
    && t.New? && u in g && v in g && BestPivot(g, t.P, t.X, u)
    && D <= t.P - g[u] && v in t.P - g[u] && v !in D
    && c == New(t.R + {v}, (t.P - D) * g[v], (t.X + D) * g[v])
  }

  ghost predicate Calls(g: Adjacency, t: Task, c: Task) {
    exists u, D, v :: Descend(g, t, u, D, v, c)
  }

  /** A call that the search of g makes: a root, or the child of such a call. */
  ghost predicate Reached(g: Adjacency, ord: Order, calls: seq<Task>)
    requires Simple(g) && ValidOrder(g, ord)
  {
    && calls != [] && (exists r :: r in g && calls[0] == PoolRuns.RootTask(g, ord, r))
    && forall i :: 0 <= i < |calls| - 1 ==> Calls(g, calls[i], calls[i + 1])
  }

  /** A call t makes pooled sets for a candidate and hands them to a task of their own. */
  ghost predicate Escapes(g: Adjacency, mem: int, threshold: int, t: Task, u: Vertex, D: set<Vertex>, v: Vertex,
        c: Task) {
    && Descend(g, t, u, D, v, c) && Small(mem, t.P - D, t.X + D) && |c.P| + |c.X| >= threshold
  }

  ghost predicate EscapesIn(g: Adjacency, ord: Order, mem: int, threshold: int, calls: seq<Task>) {
    && Simple(g) && ValidOrder(g, ord) && Reached(g, ord, calls)
    && SomeEscapes(g, mem, threshold, calls[|calls| - 1])
  }

  ghost predicate SomeEscapes(g: Adjacency, mem: int, threshold: int, t: Task) {
    exists u, D, v, c :: Escapes(g, mem, threshold, t, u, D, v, c)
  }

  ghost predicate CanEscape(mem: int, threshold: int) {
    exists g, ord, calls :: EscapesIn(g, ord, mem, threshold, calls)
  }

  /** The thresholds of a run are compatible. */
  predicate Compatible(mem: int, threshold: int) {
    mem <= 1 + if threshold > 0 then threshold else 0
  }

  lemma ChildLosesOne(g: Adjacency, P: set<Vertex>, X: set<Vertex>, v: Vertex)
    requires Simple(g) && v in P && v in g
    ensures |P * g[v]| + |X * g[v]| <= |P| + |X| - 1 && |P * g[v]| < |P|
  {
    ChildIsSmaller(g, P, v);
    SubsetSize(X * g[v], X);
  }

  lemma NoEscape(g: Adjacency, mem: int, threshold: int, t: Task, u: Vertex, D: set<Vertex>, v: Vertex, c: Task)
    requires Simple(g) && Escapes(g, mem, threshold, t, u, D, v, c)
    ensures !Compatible(mem, threshold)
  {
    hide BestPivot;
    ChildLosesOne(g, t.P - D, t.X + D, v);
  }

  lemma CompleteDegrees(V: set<Vertex>)
    ensures Simple(Complete(V)) && forall w :: w in V ==> |Complete(V)[w]| == |V| - 1
  {
    CompleteIsClique(V);
  }

  lemma AllLater(g: Adjacency, r: Vertex)
    requires Simple(g) && r in g && forall w :: w in g[r] ==> Before(g, ByDegree, r, w)
    ensures PoolRuns.RootTask(g, ByDegree, r) == New({r}, g[r], {})
  {
    assert Later(g, ByDegree, r) == g[r];
    assert Earlier(g, ByDegree, r) == {};
  }

  /** The root of the least vertex in a complete graph has all other vertices in P. */
  lemma CompleteRoot(V: set<Vertex>, r: Vertex)
    requires r in V && forall w :: w in V ==> w >= r
    ensures Simple(Complete(V)) && PoolRuns.RootTask(Complete(V), ByDegree, r) == New({r}, V - {r}, {})
  {
    var g := Complete(V);
    CompleteDegrees(V);
    assert forall w :: w in g[r] ==> Before(g, ByDegree, r, w);
    AllLater(g, r);
  }

  /** In a complete graph every vertex of P is a best pivot and leaves itself as the only candidate. */
  lemma CompletePivot(V: set<Vertex>, P: set<Vertex>, u: Vertex)
    requires P <= V && u in P
    ensures BestPivot(Complete(V), P, {}, u) && P - Complete(V)[u] == {u} && P * Complete(V)[u] == P - {u}
  {
    var g := Complete(V);
    forall w | w in P + {} ensures Score(g, P, w) <= Score(g, P, u) {
      assert P * g[w] == P - {w} && P * g[u] == P - {u};
    }
  }

  lemma CompleteDescends(V: set<Vertex>, P: set<Vertex>, u: Vertex)
    requires P <= V && u in P && 0 in V && 0 !in P
    ensures Descend(Complete(V), New({0}, P, {}), u, {}, u, New({0} + {u}, P - {u}, {}))
  {
    CompletePivot(V, P, u);
    hide BestPivot;
    assert P - {} == P;
    var none: set<Vertex> := {};
    assert (none + none) * Complete(V)[u] == none;
  }

  /** No pooled set reaches another task in any search exactly when --mem-thresh is at most one above --thresh. */
  lemma EscapeCondition(mem: int, threshold: int)
    requires mem <= 0x8000_0000
    ensures CanEscape(mem, threshold) <==> !Compatible(mem, threshold)
  {
    if CanEscape(mem, threshold) {
      var g, ord, calls :| EscapesIn(g, ord, mem, threshold, calls);
      hide Reached, Simple;
      var u, D, v, c :| Escapes(g, mem, threshold, calls[|calls| - 1], u, D, v, c);
      NoEscape(g, mem, threshold, calls[|calls| - 1], u, D, v, c);
    }
    if !Compatible(mem, threshold) {
      CompleteEscapes(mem, threshold);
    }
  }

  lemma CompleteEscapes(mem: int, threshold: int)
    requires mem <= 0x8000_0000 && !Compatible(mem, threshold)
    ensures CanEscape(mem, threshold)
  {
    var V := Numbers(mem);
    var P := V - {0};
    var t, c := New({0}, P, {}), New({0} + {1}, P - {1}, {});
    CompleteRoot(V, 0);
    CompleteDescends(V, P, 1);
    RootEscapes(Complete(V), mem, threshold, t, c);
  }

  lemma RootEscapes(g: Adjacency, mem: int, threshold: int, t: Task, c: Task)
    requires Simple(g) && 0 in g && t == PoolRuns.RootTask(g, ByDegree, 0) && Descend(g, t, 1, {}, 1, c)
    requires |t.P| + |t.X| < mem && |c.P| + |c.X| >= threshold
    ensures CanEscape(mem, threshold)
  {
    hide Simple, PoolRuns.RootTask, BestPivot;
    var none: set<Vertex> := {};
    assert t.P - none == t.P && t.X + none == t.X;
    hide Descend;
    assert Escapes(g, mem, threshold, t, 1, none, 1, c);
    assert Reached(g, ByDegree, [t]);
    assert EscapesIn(g, ByDegree, mem, threshold, [t]);
  }

  // --- the memory of pooled sets ---

  ghost predicate AllIn(s: seq<Region>, t: seq<Region>) {
    forall r :: r in s ==> r in t
  }

  ghost predicate ApartFrom(s: seq<Region>, t: seq<Region>) {
    forall a, b :: a in s && b in t ==> a.Apart(b)
  }

  /** The last region handed out overlaps none of the earlier ones. */
  lemma LastIsApart(regions: seq<Region>, r: Region)
    requires AllApart(regions + [r])
    ensures ApartFrom(regions, [r])
  {
    forall a | a in regions ensures a.Apart(r) {
      var i :| 0 <= i < |regions| && regions[i] == a;
      assert (regions + [r])[i].Apart((regions + [r])[|regions|]);
    }
  }

  /** An address that the system allocator may answer: aligned, and away from the live blocks. */
  method SystemMemory(chunk: MemChunk, bytes: nat) returns (ptr: nat)
    requires chunk.Valid()
    ensures ptr % LINE == 0
    ensures forall k :: 0 <= k < |chunk.dynamic_block_list| ==>
      chunk.dynamic_block_list[k].Apart(chunk.NewBlock(bytes, ptr))
  {
    ptr := *;
    var blocks := chunk.dynamic_block_list;
    if ptr % LINE == 0 && forall k :: 0 <= k < |blocks| ==> blocks[k].Apart(chunk.NewBlock(bytes, ptr)) {
      return;
    }
    ptr := 0;
    for k := 0 to |blocks|
      invariant ptr % LINE == 0 && forall l :: 0 <= l < k ==> blocks[l].start + blocks[l].size <= ptr
    {
      if blocks[k].start + blocks[k].size > ptr {
        ptr := LinesUpTo(blocks[k].start + blocks[k].size);
      }
    }
  }

  function LinesUpTo(n: nat): (r: nat)
    ensures r % LINE == 0 && n <= r
  {
    (n / LINE + 1) * LINE
  }

  /** A live set: its memory, and how many elements it has. */
  datatype Pooled = Pooled(regions: seq<Region>, elems: nat)

  type Live = map<nat, Pooled>

  /** One bucket for every 16 elements. */
  function Buckets(n: nat): nat {
    (n + 15) / 16
  }

  /** A set has memory for itself and for all its elements, and its regions do not overlap. */
  ghost predicate Roomy(m: Pooled, setBytes: nat, bucketBytes: nat) {
    && |m.regions| >= 1 + Buckets(m.elems) && AllApart(m.regions) && m.regions[0].size >= setBytes
    && forall i :: 1 <= i < |m.regions| ==> m.regions[i].size >= bucketBytes
  }

  /** The memory of the live sets has not been released, and that of different sets does not overlap. */
  ghost predicate Sound(live: Live, next: nat, regions: seq<Region>) {
    && (forall id :: id in live ==> id < next && AllIn(live[id].regions, regions))
    && forall id, id' :: id in live && id' in live && id != id' ==> ApartFrom(live[id].regions, live[id'].regions)
  }

  lemma OneMoreSet(live: Live, next: nat, regions: seq<Region>, mine: Pooled, regions': seq<Region>)
    requires Sound(live, next, regions) && regions <= regions'
    requires AllIn(mine.regions, regions') && ApartFrom(regions, mine.regions)
    ensures next !in live && Sound(live[next := mine], next + 1, regions')
  {
    assert forall r :: r in regions ==> r in regions';
  }

  lemma LargerSet(live: Live, next: nat, regions: seq<Region>, id: nat, r: Region, n: nat)
    requires Sound(live, next, regions) && id in live && ApartFrom(regions, [r])
    ensures Sound(live[id := Pooled(live[id].regions + [r], n)], next, regions + [r])
  {
    var live' := live[id := Pooled(live[id].regions + [r], n)];
    assert forall x :: x in regions ==> x in regions + [r];
    assert r in regions + [r];
    forall a, b | a in live' && b in live' && a != b ensures ApartFrom(live'[a].regions, live'[b].regions) {
      assert ApartFrom(live[a].regions, live[b].regions) && ApartFrom(live[b].regions, live[a].regions);
      assert AllIn(live[a].regions, regions) && AllIn(live[b].regions, regions);
    }
  }

  /** One more bucket of its own has room for 16 more elements. */
  lemma RoomyWithBucket(m: Pooled, regions: seq<Region>, r: Region, setBytes: nat, bucketBytes: nat)
    requires Roomy(m, setBytes, bucketBytes) && AllIn(m.regions, regions) && ApartFrom(regions, [r])
    requires r.size >= bucketBytes
    ensures Roomy(Pooled(m.regions + [r], m.elems + 1), setBytes, bucketBytes)
  {
  }

  /** A bucket that is not full has room for one more element. */
  lemma RoomyWithout(m: Pooled, setBytes: nat, bucketBytes: nat)
    requires Roomy(m, setBytes, bucketBytes) && m.elems % 16 != 0
    ensures Roomy(m.(elems := m.elems + 1), setBytes, bucketBytes)
  {
  }

  lemma OneSetLess(live: Live, next: nat, regions: seq<Region>, id: nat)
    requires Sound(live, next, regions) && id in live
    ensures Sound(live - {id}, next, regions) && (live - {id}).Keys == live.Keys - {id}
    ensures |live.Keys| == 1 ==> (live - {id}).Keys == {}
  {
    assert |live.Keys - {id}| == |live.Keys| - 1;
  }

  lemma NoneLive(live: Live, next: nat)
    requires live.Keys == {}
    ensures Sound(live, next, [])
  {
  }

  /** What adding an element does to the set id: a bucket of its own if the last one was full. */
  ghost predicate Grown(before: Live, after: Live, id: nat) {
    && id in before && id in after && after == before[id := after[id]] && after[id].elems == before[id].elems + 1
    && before[id].regions <= after[id].regions
    && |after[id].regions| == |before[id].regions| + if before[id].elems % 16 == 0 then 1 else 0
  }

  class SetPool {
    const chunk: MemChunk
    /** The sizes of a set and of a list bucket. */
    const setBytes: nat
    const bucketBytes: nat

    /** Each live pooled set. */
    ghost var live: Live
    ghost var next: nat

    /** The count of the chunk is that of the live sets, and their memory is there and suffices. */
    ghost predicate Valid()
      reads this, chunk
    {
      && chunk.Valid() && setBytes <= MAX_REQUEST && bucketBytes <= MAX_REQUEST
      && chunk.allocations == |live.Keys| && Sound(live, next, chunk.regions)
      && forall id :: id in live ==> Roomy(live[id], setBytes, bucketBytes)
    }

    constructor (blockSize: nat, setBytes: nat, bucketBytes: nat)
      requires blockSize <= MAX_BLOCK && setBytes <= MAX_REQUEST && bucketBytes <= MAX_REQUEST
      ensures Valid() && live == map[] && next == 0 && fresh(chunk)
    {
      chunk := new MemChunk(blockSize);
      this.setBytes, this.bucketBytes := setBytes, bucketBytes;
      live, next := map[], 0;
    }

    /** `get_address`, with memory from the system if a block is needed. */
    method Allocate(bytes: nat) returns (ghost r: Region)
      requires chunk.Valid() && bytes <= MAX_REQUEST
      modifies chunk
      ensures chunk.Valid() && chunk.allocations == old(chunk.allocations)
      ensures chunk.regions == old(chunk.regions) + [r] && ApartFrom(old(chunk.regions), [r]) && r.size >= bytes
    {
      var ptr := SystemMemory(chunk, bytes);
      var pointer := chunk.GetAddress(bytes, ptr);
      r := Region(pointer, Increment(bytes));
      LastIsApart(old(chunk.regions), r);
    }

    /** The memory of a new set with n elements: itself, and one bucket for every 16 of them. */
    method AllocateSet(n: nat) returns (ghost mine: seq<Region>)
      requires chunk.Valid() && setBytes <= MAX_REQUEST && bucketBytes <= MAX_REQUEST
      modifies chunk
      ensures chunk.Valid() && chunk.allocations == old(chunk.allocations)
      ensures |mine| == 1 + Buckets(n) && Roomy(Pooled(mine, n), setBytes, bucketBytes)
      ensures old(chunk.regions) <= chunk.regions && AllIn(mine, chunk.regions) && ApartFrom(old(chunk.regions), mine)
    {
      hide MemChunk.Valid;
      ghost var r := Allocate(setBytes);
      mine := [r];
      for k := 0 to Buckets(n)
        invariant chunk.Valid() && chunk.allocations == old(chunk.allocations)
        invariant |mine| == 1 + k && Roomy(Pooled(mine, 16 * k), setBytes, bucketBytes)
        invariant old(chunk.regions) <= chunk.regions && AllIn(mine, chunk.regions)
            && ApartFrom(old(chunk.regions), mine)
      {
        ghost var was := chunk.regions;
        r := Allocate(bucketBytes);
        assert forall x :: x in was ==> x in chunk.regions;
        assert forall x :: x in old(chunk.regions) ==> x in was;
        mine := mine + [r];
      }
    }

    /** The set is counted and then made in the pool, if it is to be pooled. */
    method MakeSet(pooled: bool, n: nat) returns (ghost id: nat)
      requires Valid()
      modifies this, chunk
      ensures Valid()
      ensures if pooled then
            id == old(next) && next == id + 1 && id !in old(live) && id in live && live == old(live)[id := live[id]]
              && live[id].elems == n && |live[id].regions| == 1 + (n + 15) / 16
          else live == old(live) && next == old(next)
    {
      hide MemChunk.Valid, Sound, Roomy;
      id := next;
      if pooled {
        chunk.IncrementAllocations();
        ghost var was := chunk.regions;
        ghost var mine := AllocateSet(n);
        OneMoreSet(live, next, was, Pooled(mine, n), chunk.regions);
        live := live[next := Pooled(mine, n)];
        next := next + 1;
        assert live.Keys == old(live).Keys + {id};
      }
    }

    /** `add_elem` on a pooled set of n elements takes a bucket when the last one is full. */
    method GrowSet(pooled: bool, n: nat, ghost id: nat)
      requires Valid() && (pooled ==> id in live && live[id].elems == n)
      modifies this, chunk
      ensures Valid() && next == old(next)
      ensures if pooled then Grown(old(live), live, id) else live == old(live)
    {
      hide MemChunk.Valid, Sound, Roomy;
      if pooled {
        ghost var m := live[id];
        if n % 16 == 0 {
          ghost var was := chunk.regions;
          MemoryOf(id);
          ghost var r := Allocate(bucketBytes);
          LargerSet(live, next, was, id, r, n + 1);
          RoomyWithBucket(m, was, r, setBytes, bucketBytes);
          live := live[id := Pooled(m.regions + [r], n + 1)];
        } else {
          RoomyWithout(m, setBytes, bucketBytes);
          SameMemory(n + 1, id);
          live := live[id := m.(elems := n + 1)];
        }
        assert live.Keys == old(live).Keys;
      }
    }

    lemma MemoryOf(id: nat)
      requires Valid() && id in live
      ensures AllIn(live[id].regions, chunk.regions)
    {
    }

    lemma SameMemory(n: nat, id: nat)
      requires Valid() && id in live
      ensures Sound(live[id := live[id].(elems := n)], next, chunk.regions)
      ensures n <= live[id].elems ==> Roomy(live[id].(elems := n), setBytes, bucketBytes)
    {
    }

    /** `del_elem` on a pooled set: the pool gets nothing back. */
    method ShrinkSet(pooled: bool, n: nat, ghost id: nat)
      requires Valid() && (pooled ==> id in live && live[id].elems == n >= 1)
      modifies this`live
      ensures Valid()
      ensures live == if pooled then old(live)[id := old(live)[id].(elems := n - 1)] else old(live)
    {
      hide MemChunk.Valid, Sound, Roomy;
      if pooled {
        SameMemory(n - 1, id);
        live := live[id := live[id].(elems := n - 1)];
        assert live.Keys == old(live).Keys;
      }
    }

    /** `delete_set`: the count falls, and the blocks go with the last set. */
    method DeleteSet(pooled: bool, ghost id: nat)
      requires Valid() && (pooled ==> id in live)
      modifies this, chunk
      ensures Valid() && next == old(next)
      ensures live == old(live) - Mine(pooled, id)
    {
      hide MemChunk.Valid, Sound, Roomy;
      if pooled {
        OneSetLess(live, next, chunk.regions, id);
        live := live - {id};
        chunk.DecrementAllocations();
        if chunk.allocations == 0 {
          NoneLive(live, next);
        }
      }
    }
  }

  /** All live sets but `changed` are still live, in the same memory. */
  ghost predicate Kept(before: Live, after: Live, changed: set<nat>) {
    forall id :: id in before && id !in changed ==> id in after && after[id] == before[id]
  }

  function One(pooled: bool): nat {
    if pooled then 1 else 0
  }

  ghost function Mine(pooled: bool, id: nat): set<nat> {
    if pooled then {id} else {}
  }

  ghost function Own(pooled: bool, p: nat, x: nat): set<nat> {
    Mine(pooled, p) + Mine(pooled, x)
  }

  /** The two sets p and x of a call, if pooled, are live and have the elements of P and X. */
  ghost predicate Hold(live: Live, pooled: bool, p: nat, x: nat, P: set<Vertex>, X: set<Vertex>) {
    pooled ==> p in live && x in live && p != x && live[p].elems == |P| && live[x].elems == |X|
  }

  /** What a call decides about the sets it makes on (P, X), and how many those are. */
  datatype Decision = Decision(P: set<Vertex>, X: set<Vertex>, sets: nat)

  /** How many of the sets are pooled. */
  ghost function PooledCount(mem: int, made: seq<Decision>): nat {
    if made == [] then 0 else
      var d := made[|made| - 1];
      PooledCount(mem, made[..|made| - 1]) + if |d.P| + |d.X| < mem then d.sets else 0
  }

  lemma {:induction false} PooledCountConcat(mem: int, a: seq<Decision>, b: seq<Decision>)
    ensures PooledCount(mem, a + b) == PooledCount(mem, a) + PooledCount(mem, b)
    decreases |b|
  {
    if b == [] {
      assert a + b == a;
    } else {
      PooledCountConcat(mem, a, b[..|b| - 1]);
      assert (a + b)[..|a + b| - 1] == a + b[..|b| - 1];
    }
  }

  lemma OneDecision(mem: int, d: Decision)
    ensures PooledCount(mem, [d]) == if |d.P| + |d.X| < mem then d.sets else 0
  {
    assert PooledCount(mem, [d][..0]) == 0;
  }

  lemma KeptItself(live: Live, changed: set<nat>)
    ensures Kept(live, live, changed)
  {
  }

  lemma KeptThen(m0: Live, m1: Live, m2: Live, changed: set<nat>)
    requires Kept(m0, m1, changed) && Kept(m1, m2, changed)
    ensures Kept(m0, m2, changed)
  {
  }

  /** Giving back the two sets of a call. */
  lemma OwnGone(m: Live, pooled: bool, p: nat, x: nat)
    requires pooled ==> p in m && x in m && p != x
    ensures pooled ==> x in m - Mine(pooled, p)
    ensures var m' := m - Mine(pooled, p) - Mine(pooled, x);
            Kept(m, m', Own(pooled, p, x)) && m'.Keys == m.Keys - Own(pooled, p, x)
  {
    var m' := m - Mine(pooled, p) - Mine(pooled, x);
    assert m'.Keys == m.Keys - Mine(pooled, p) - Mine(pooled, x);
  }

  /** P and X exchange a vertex. */
  lemma Moved(P: set<Vertex>, X: set<Vertex>, v: Vertex)
    requires v in P && P !! X
    ensures P - {v} !! X + {v} && (P - {v}) + (X + {v}) == P + X
    ensures |P - {v}| == |P| - 1 && |X + {v}| == |X| + 1
  {
  }

  /** The pool after a set has been made. */
  ghost predicate Added(m: Live, m': Live, pooled: bool, id: nat, n: nat) {
    if pooled then id !in m && id in m' && m' == m[id := m'[id]] && m'[id].elems == n else m' == m
  }

  /** The pool after a vertex has moved from the set p to the set x. */
  ghost predicate Exchanged(m: Live, m': Live, pooled: bool, p: nat, x: nat) {
    if pooled then
      && p in m && x in m && p in m' && x in m' && p != x && m' == m[p := m'[p]][x := m'[x]]
      && m'[p].elems == m[p].elems - 1 && m'[x].elems == m[x].elems + 1
    else m' == m
  }

  /** From making the two sets of a candidate to the end of the call on them. */
  lemma IterationKeeps(m0: Live, m1: Live, m2: Live, m3: Live, m4: Live, small: bool, ip: nat, ix: nat, pooled: bool,
        p: nat, x: nat, P: set<Vertex>, X: set<Vertex>, P': set<Vertex>, X': set<Vertex>, np: nat, nx: nat,
        exact: bool)
    requires Added(m0, m1, small, ip, np) && Added(m1, m2, small, ix, nx)
    requires Exchanged(m2, m3, pooled, p, x) && Hold(m0, pooled, p, x, P, X)
    requires |P'| == |P| - 1 && |X'| == |X| + 1
    requires Kept(m3, m4, Own(small, ip, ix)) && m4.Keys >= m3.Keys - Own(small, ip, ix)
    requires exact ==> m4.Keys == m3.Keys - Own(small, ip, ix)
    ensures Kept(m0, m4, Own(pooled, p, x)) && m4.Keys >= m0.Keys && (exact ==> m4.Keys == m0.Keys)
    ensures Hold(m4, pooled, p, x, P', X')
  {
    assert m3.Keys == m2.Keys == m1.Keys + Mine(small, ix) && m1.Keys == m0.Keys + Mine(small, ip);
    assert m0.Keys !! Own(small, ip, ix);
    forall id | id in m0
      ensures id in m4.Keys && m4[id] == m3[id] && (id !in Own(pooled, p, x) ==> m3[id] == m0[id])
          && m2[id] == m0[id]
    {
    }
  }

  /** Making the sets of a candidate leaves those of the call alone. */
  lemma PairHolds(m0: Live, m1: Live, m2: Live, small: bool, ip: nat, ix: nat, pooled: bool, p: nat, x: nat,
        P: set<Vertex>, X: set<Vertex>, np: nat, nx: nat)
    requires Hold(m0, pooled, p, x, P, X) && Added(m0, m1, small, ip, np) && Added(m1, m2, small, ix, nx)
    ensures pooled ==> p in m0 && x in m0 && p in m2 && x in m2 && p != x && m2[p].elems == |P| && m2[x].elems == |X|
  {
  }

  /** The move of the candidate leaves its own sets alone. */
  lemma StillHolds(m0: Live, m1: Live, m2: Live, m3: Live, small: bool, ip: nat, ix: nat, pooled: bool, p: nat,
        x: nat, intersP: set<Vertex>, intersX: set<Vertex>)
    requires Added(m0, m1, small, ip, |intersP|) && Added(m1, m2, small, ix, |intersX|)
    requires Exchanged(m2, m3, pooled, p, x) && (pooled ==> p in m0 && x in m0)
    ensures Hold(m3, small, ip, ix, intersP, intersX)
  {
  }

  /** From making the candidates of a call to giving all its sets back. */
  lemma CallKeeps(m0: Live, m1: Live, m2: Live, small: bool, cand: nat, n: nat, pooled: bool, p: nat, x: nat,
        exact: bool)
    requires Added(m0, m1, small, cand, n)
    requires Kept(m1, m2, Own(pooled, p, x)) && m2.Keys >= m1.Keys && (exact ==> m2.Keys == m1.Keys)
    requires pooled ==> p in m0 && x in m0 && p != x
    ensures small ==> cand in m2
    ensures pooled ==> p in m2 - Mine(small, cand) && x in m2 - Mine(small, cand) - {p}
    ensures var m := m2 - Mine(small, cand) - Mine(pooled, p) - Mine(pooled, x);
            && Kept(m0, m, Own(pooled, p, x)) && m.Keys >= m0.Keys - Own(pooled, p, x)
            && (exact ==> m.Keys == m0.Keys - Own(pooled, p, x))
  {
    var m := m2 - Mine(small, cand) - Mine(pooled, p) - Mine(pooled, x);
    assert m1.Keys == m0.Keys + Mine(small, cand) && m0.Keys !! Mine(small, cand);
    assert m.Keys == m2.Keys - Mine(small, cand) - Mine(pooled, p) - Mine(pooled, x);
    forall id | id in m0 ensures id in m1.Keys && id in m2.Keys && m1[id] == m0[id] {
    }
  }

  /** `--mem-thresh`, `--thresh` and `--max-clq`. */
  datatype Limits = Limits(mem: int, threshold: int, limit: int)

  /**
   The sets of one call on (P, X) with |R| = size, whose P and X are pooled or not, and of all calls
   below it in the same task; any pivot and any order of the candidates. At every moment the pool
   is valid: the count is that of the live sets, and their memory is there and has room for their
   elements. The call gives back its own sets and those it was given; only what the size limit cuts off
   stays. The sets of the callers keep their memory. The decisions on what is pooled are listed in `made`.
   */
  method Call(g: Adjacency, l: Limits, size: nat, P0: set<Vertex>, X0: set<Vertex>, pool: SetPool, pooled: bool,
        ghost p: nat, ghost x: nat)
    returns (ghost handedOver: nat, ghost made: seq<Decision>)
    requires Simple(g) && P0 + X0 <= g.Keys && P0 !! X0 && Compatible(l.mem, l.threshold) && pool.Valid()
    requires Hold(pool.live, pooled, p, x, P0, X0)
    modifies pool, pool.chunk
    ensures pool.Valid() && handedOver == 0 && Kept(old(pool.live), pool.live, Own(pooled, p, x))
    ensures pool.live.Keys >= old(pool.live).Keys - Own(pooled, p, x)
    ensures l.limit < 0 ==> pool.live.Keys == old(pool.live).Keys - Own(pooled, p, x)
    ensures P0 == {} ==> pool.live.Keys == old(pool.live).Keys - Own(pooled, p, x)
    ensures pool.next == old(pool.next) + PooledCount(l.mem, made)
    ensures P0 == {} || CutsOff(l.limit, size) ==> made == []
    ensures P0 != {} && !CutsOff(l.limit, size) ==>
        && made != [] && made[0] == Decision(P0, X0, 1)
        && exists u :: u in P0 + X0 && u in g && |made| >= 1 + |P0 - g[u]|
    decreases |P0|, 2
  {
    hide SetPool.Valid, Simple, Kept, PooledCount;
    handedOver, made := 0, [];
    NoDecision(l.mem);
    KeptItself(pool.live, Own(pooled, p, x));
    OwnGone(pool.live, pooled, p, x);
    if P0 == {} {
      pool.DeleteSet(pooled, p);
      pool.DeleteSet(pooled, x);
      return;
    }
    if CutsOff(l.limit, size) {
      return;
    }
    var u :| u in P0 + X0;
    var small := Small(l.mem, P0, X0);
    ghost var cand := pool.MakeSet(small, |P0 - g[u]|);
    ghost var live := pool.live;
    OneDecision(l.mem, Decision(P0, X0, 1));
    ghost var below;
    handedOver, below := Candidates(g, l, size, P0, X0, P0 - g[u], pool, pooled, p, x, small, cand);
    PooledCountConcat(l.mem, [Decision(P0, X0, 1)], below);
    made := [Decision(P0, X0, 1)] + below;
    CallKeeps(old(pool.live), live, pool.live, small, cand, |P0 - g[u]|, pooled, p, x, l.limit < 0);
    pool.DeleteSet(small, cand);
    pool.DeleteSet(pooled, p);
    pool.DeleteSet(pooled, x);
  }

  lemma NoDecision(mem: int)
    ensures PooledCount(mem, []) == 0
  {
  }

  /** The loop over the candidates K in the set cand; each moves from P to X, which may take a bucket for X. */
  method Candidates(g: Adjacency, l: Limits, size: nat, P0: set<Vertex>, X0: set<Vertex>, K: set<Vertex>,
        pool: SetPool, pooled: bool, ghost p: nat, ghost x: nat, small: bool, ghost cand: nat)
    returns (ghost handedOver: nat, ghost made: seq<Decision>)
    requires small ==> cand in pool.live && pool.live[cand].elems == |K| && cand !in Own(pooled, p, x)
    requires Simple(g) && P0 + X0 <= g.Keys && P0 !! X0 && K <= P0 && Compatible(l.mem, l.threshold) && pool.Valid()
    requires Hold(pool.live, pooled, p, x, P0, X0)
    modifies pool, pool.chunk
    ensures pool.Valid() && handedOver == 0 && Kept(old(pool.live), pool.live, Own(pooled, p, x))
    ensures pool.live.Keys >= old(pool.live).Keys && (l.limit < 0 ==> pool.live.Keys == old(pool.live).Keys)
    ensures Hold(pool.live, pooled, p, x, P0 - K, X0 + K)
    ensures pool.next == old(pool.next) + PooledCount(l.mem, made) && |made| >= |K|
    decreases |P0|, 1
  {
    hide SetPool.Valid, Simple, Kept, Hold, PooledCount, Midway, Own, Compatible;
    handedOver, made := 0, [];
    NoDecision(l.mem);
    KeptItself(pool.live, Own(pooled, p, x));
    var rest, P, X := K, P0, X0;
    StartMidway(P0, X0, K);
    while rest != {}
      invariant Midway(P0, X0, K, rest, P, X)
      invariant small ==> cand in pool.live && pool.live[cand] == old(pool.live[cand])
      invariant pool.Valid() && handedOver == 0 && Kept(old(pool.live), pool.live, Own(pooled, p, x))
      invariant pool.live.Keys >= old(pool.live).Keys && (l.limit < 0 ==> pool.live.Keys == old(pool.live).Keys)
      invariant Hold(pool.live, pooled, p, x, P, X)
      invariant pool.next == old(pool.next) + PooledCount(l.mem, made) && |made| + |rest| >= |K|
      decreases rest
    {
      var v :| v in rest;
      ghost var was := pool.live;
      ghost var over, more;
      StepMidway(P0, X0, K, rest, P, X, v);
      over, more := Iteration(g, l, size, P, X, v, pool, pooled, p, x);
      KeptThen(old(pool.live), was, pool.live, Own(pooled, p, x));
      PooledCountConcat(l.mem, made, more);
      handedOver, made := handedOver + over, made + more;
      rest, P, X := rest - {v}, P - {v}, X + {v};
    }
    EndMidway(P0, X0, K, P, X);
  }

  /** All candidates of K but those in `rest` have moved. */
  ghost predicate Midway(P0: set<Vertex>, X0: set<Vertex>, K: set<Vertex>, rest: set<Vertex>, P: set<Vertex>,
        X: set<Vertex>) {
    rest <= K <= P0 && P0 !! X0 && P == P0 - (K - rest) && X == X0 + (K - rest)
  }

  lemma StartMidway(P0: set<Vertex>, X0: set<Vertex>, K: set<Vertex>)
    requires K <= P0 && P0 !! X0
    ensures Midway(P0, X0, K, K, P0, X0)
  {
    assert K - K == {};
  }

  lemma StepMidway(P0: set<Vertex>, X0: set<Vertex>, K: set<Vertex>, rest: set<Vertex>, P: set<Vertex>,
        X: set<Vertex>, v: Vertex)
    requires Midway(P0, X0, K, rest, P, X) && v in rest
    ensures Midway(P0, X0, K, rest - {v}, P - {v}, X + {v})
    ensures v in P && P !! X && P + X == P0 + X0 && |P| <= |P0|
  {
    MoveOne(P0, X0, K - rest, v);
    assert K - (rest - {v}) == (K - rest) + {v};
    SubsetSize(P, P0);
  }

  lemma MoveOne(P0: set<Vertex>, X0: set<Vertex>, moved: set<Vertex>, v: Vertex)
    requires moved <= P0 && P0 !! X0
    ensures P0 - moved - {v} == P0 - (moved + {v}) && X0 + moved + {v} == X0 + (moved + {v})
    ensures P0 - moved !! X0 + moved && P0 - moved + (X0 + moved) == P0 + X0
  {
  }

  lemma EndMidway(P0: set<Vertex>, X0: set<Vertex>, K: set<Vertex>, P: set<Vertex>, X: set<Vertex>)
    requires Midway(P0, X0, K, {}, P, X)
    ensures P == P0 - K && X == X0 + K
  {
    assert K - {} == K;
  }

  /** One candidate: its two sets go to a call in this task, or to a new task. */
  method Iteration(g: Adjacency, l: Limits, size: nat, P: set<Vertex>, X: set<Vertex>, v: Vertex, pool: SetPool,
        pooled: bool, ghost p: nat, ghost x: nat)
    returns (ghost handedOver: nat, ghost made: seq<Decision>)
    requires Simple(g) && P + X <= g.Keys && P !! X && v in P && Compatible(l.mem, l.threshold) && pool.Valid()
    requires Hold(pool.live, pooled, p, x, P, X)
    modifies pool, pool.chunk
    ensures pool.Valid() && handedOver == 0 && Kept(old(pool.live), pool.live, Own(pooled, p, x))
    ensures pool.live.Keys >= old(pool.live).Keys && (l.limit < 0 ==> pool.live.Keys == old(pool.live).Keys)
    ensures Hold(pool.live, pooled, p, x, P - {v}, X + {v})
    ensures pool.next == old(pool.next) + PooledCount(l.mem, made) && made != [] && made[0] == Decision(P, X, 2)
    ensures |P * g[v]| + |X * g[v]| >= l.threshold ==> |made| == 1
    ensures |P * g[v]| + |X * g[v]| < l.threshold && P * g[v] != {} && !CutsOff(l.limit, size + 1) ==>
        |made| >= 2 && made[1] == Decision(P * g[v], X * g[v], 1)
    decreases |P|, 0
  {
    hide SetPool.Valid, Simple, Kept, PooledCount, Hold, Added, Exchanged;
    assert v in P + X;
    ChildLosesOne(g, P, X, v);
    Moved(P, X, v);
    var small := Small(l.mem, P, X);
    var intersP, intersX := P * g[v], X * g[v];
    ghost var ip, ix, m1, m2 := MakePair(small, |intersP|, |intersX|, pool);
    PairHolds(old(pool.live), m1, m2, small, ip, ix, pooled, p, x, P, X, |intersP|, |intersX|);
    OneDecision(l.mem, Decision(P, X, 2));
    made := [Decision(P, X, 2)];
    Exchange(pool, pooled, |P|, |X|, p, x);
    ghost var m3 := pool.live;
    StillHolds(old(pool.live), m1, m2, m3, small, ip, ix, pooled, p, x, intersP, intersX);
    KeptItself(m3, Own(small, ip, ix));
    if |intersP| + |intersX| < l.threshold {
      ghost var below;
      handedOver, below := Call(g, l, size + 1, intersP, intersX, pool, small, ip, ix);
      PooledCountConcat(l.mem, made, below);
      made := made + below;
    } else {
      handedOver := 2 * One(small);
    }
    IterationKeeps(old(pool.live), m1, m2, m3, pool.live, small, ip, ix, pooled, p, x, P, X, P - {v}, X + {v},
                   |intersP|, |intersX|, l.limit < 0);
  }

  /** The sets of a candidate. */
  method MakePair(small: bool, np: nat, nx: nat, pool: SetPool)
    returns (ghost ip: nat, ghost ix: nat, ghost m1: Live, ghost m2: Live)
    requires pool.Valid()
    modifies pool, pool.chunk
    ensures pool.Valid() && m2 == pool.live && pool.next == old(pool.next) + if small then 2 else 0
    ensures Added(old(pool.live), m1, small, ip, np) && Added(m1, m2, small, ix, nx)
  {
    hide SetPool.Valid;
    ip := pool.MakeSet(small, np);
    m1 := pool.live;
    ix := pool.MakeSet(small, nx);
    m2 := pool.live;
  }

  /** The vertex moves from P to X. */
  method Exchange(pool: SetPool, pooled: bool, np: nat, nx: nat, ghost p: nat, ghost x: nat)
    requires pool.Valid() && np >= 1
    requires pooled ==> p in pool.live && x in pool.live && p != x
    requires pooled ==> pool.live[p].elems == np && pool.live[x].elems == nx
    modifies pool, pool.chunk
    ensures pool.Valid() && pool.next == old(pool.next) && Exchanged(old(pool.live), pool.live, pooled, p, x)
  {
    hide SetPool.Valid;
    pool.ShrinkSet(pooled, np, p);
    pool.GrowSet(pooled, nx, x);
  }
}
