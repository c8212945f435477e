/**
 The unrolled list: a chain of 16-element buckets, filled in order, with the last element at
 `offset` of the tail bucket.
 */
module UnrolledLists {
  import opened Keys
  import opened Lanes
  import opened Vectors

  class Bucket {
    const elems: array<int>
    var next: Bucket?

    constructor ()
      ensures fresh(this.elems) && elems.Length == 16 && next == null
    {
      elems := new int[ELEMS_IN_BUCKET](_ => INVAL_KEY);
      next := null;
    }
  }

  class UnrolledList {
    var head: Bucket?
    var tail: Bucket?
    var offset: nat
    var num_of_buckets: nat
    var num_of_elems: nat
    var iter: Bucket?
    var iter_offs: nat

    ghost var Repr: set<object>
    ghost var spine: seq<Bucket>
    ghost var lanes: seq<seq<int>>

    /** The bucket chain: `spine` lists the buckets, `lanes` their contents. */
    ghost predicate Chained()
      reads this, Repr
    {
      && this in Repr
      && |spine| == |lanes| == num_of_buckets && FullLanes(lanes)
      && (forall b :: 0 <= b < |spine| ==> spine[b] in Repr && spine[b].elems in Repr && spine[b].elems.Length == 16)
      && (forall a, b :: 0 <= a < b < |spine| ==> spine[a] != spine[b] && spine[a].elems != spine[b].elems)
      && (forall b, l :: 0 <= b < |spine| && 0 <= l < 16 ==> spine[b].elems[l] == lanes[b][l])
      && (forall b {:trigger spine[b].next} :: 0 <= b < |spine| - 1 ==> spine[b].next == spine[b + 1])
      && (spine == [] ==> head == null && tail == null)
      && (spine != [] ==> head == spine[0] && tail == spine[|spine| - 1] && tail.next == null)
    }

    ghost predicate Valid()
      reads this, Repr
      ensures Valid() ==> this in Repr
    {
      && Chained()
      && offset < 16
      && (spine == [] ==> offset == 0 && num_of_elems == 0)
      && (spine != [] ==> num_of_elems == 16 * (|spine| - 1) + offset + 1)
    }

    /** The abstract list. */
    ghost function Elems(): seq<int>
      reads this, Repr
      requires Valid()
    {
      Listed(lanes, num_of_elems)
    }

    /** What the unused lanes of the tail bucket still hold. */
    ghost function Stale(): seq<int>
      reads this, Repr
      requires Valid()
    {
      StaleLanes(lanes, num_of_elems)
    }

    constructor ()
      ensures Valid() && fresh(Repr) && Elems() == []
      ensures iter == null
    {
      head, tail, offset, num_of_buckets, num_of_elems := null, null, 0, 0, 0;
      iter, iter_offs := null, 0;
      spine, lanes := [], [];
      Repr := {this};
    }

    /** Link a fresh bucket behind the tail. */
    method AddBucket()
      requires Chained()
      modifies Repr
      ensures Chained() && fresh(Repr - old(Repr)) && spine != []
      ensures exists bucket :: |bucket| == 16 && lanes == old(lanes) + [bucket]
      ensures num_of_elems == old(num_of_elems) && iter == old(iter) && iter_offs == old(iter_offs)
    {
      var b := new Bucket();
      if head == null {
        head := b;
      } else {
        tail.next := b;
      }
      tail := b;
      num_of_buckets := num_of_buckets + 1;
      spine := spine + [b];
      lanes := lanes + [b.elems[..]];
      Repr := Repr + {b, b.elems};
    }

    /** Write one lane of the tail bucket. */
    method Store(l: nat, el: int)
      requires Chained() && spine != [] && l < 16
      modifies this, Repr
      ensures Chained() && Repr == old(Repr) && |lanes| == |old(lanes)|
      ensures lanes == old(lanes)[|spine| - 1 := old(lanes)[|spine| - 1][l := el]]
      ensures offset == l && num_of_elems == old(num_of_elems) + 1
      ensures iter == old(iter) && iter_offs == old(iter_offs)
    {
      tail.elems[l] := el;
      lanes := lanes[|spine| - 1 := lanes[|spine| - 1][l := el]];
      offset, num_of_elems := l, num_of_elems + 1;
    }

    lemma Count()
      requires Valid()
      ensures |Elems()| == num_of_elems
    {
      ListedSize(lanes, num_of_elems);
    }

    lemma ChainFacts()
      requires Chained()
      ensures FullLanes(lanes) && |spine| == |lanes| == num_of_buckets && this in Repr
      ensures head == null <==> spine == []
    {
    }

    method Back() returns (x: int)
      requires Valid()
      ensures x == if Elems() == [] then EMPTY_KEY else Elems()[|Elems()| - 1]
    {
      ChainFacts();
      Count();
      hide Listed;
      if num_of_elems == 0 {
        return EMPTY_KEY;
      }
      BucketAt(|spine| - 1);
      ListedAt(lanes, num_of_elems, |spine| - 1, offset);
      x := tail.elems[offset];
    }

    method Front() returns (x: int)
      requires Valid()
      ensures x == if Elems() == [] then EMPTY_KEY else Elems()[0]
    {
      ChainFacts();
      Count();
      hide Listed;
      if num_of_elems == 0 {
        return EMPTY_KEY;
      }
      BucketAt(0);
      ListedAt(lanes, num_of_elems, 0, 0);
      x := head.elems[0];
    }

    method PushBack(el: int)
      requires Valid()
      modifies Repr
      ensures Valid() && fresh(Repr - old(Repr))
      ensures Elems() == old(Elems()) + [el]
      ensures iter == old(iter) && iter_offs == old(iter_offs)
    {
      hide Listed, Chained, FullLanes;
      ChainFacts();
      ghost var before := lanes;
      if head == null || offset == ELEMS_IN_BUCKET - 1 {
        AddBucket();
        ghost var extended := lanes;
        ghost var bucket :| |bucket| == 16 && extended == before + [bucket];
        ChainFacts();
        Store(0, el);
        ListedNewBucket(before, bucket[0 := el]);
        assert lanes == before + [bucket[0 := el]];
      } else {
        Store(offset + 1, el);
        ListedStore(before, |before| - 1, offset, el);
      }
      ChainFacts();
    }

    /** Unlink the tail bucket, walking from the head to the one before it. */
    method DropBucket()
      requires Chained() && spine != []
      modifies this, Repr
      ensures Chained() && Repr == old(Repr)
      ensures lanes == old(lanes)[..|old(lanes)| - 1]
      ensures offset == old(offset) && num_of_elems == old(num_of_elems)
      ensures iter == old(iter) && iter_offs == old(iter_offs)
    {
      if head == tail {
        assert |spine| == 1;
        head, tail := null, null;
      } else {
        var tmp := head;
        ghost var k := 0;
        while tmp.next != tail
          invariant 0 <= k < |spine| - 1 && tmp == spine[k]
          decreases |spine| - k
        {
          tmp := tmp.next;
          k := k + 1;
        }
        assert spine[k + 1] == tail;
        tmp.next := null;
        tail := tmp;
      }
      num_of_buckets := num_of_buckets - 1;
      spine, lanes := spine[..|spine| - 1], lanes[..|lanes| - 1];
    }

    /** Move the end of the list within the chain. */
    method SetEnd(offs: nat, n: nat)
      requires Chained()
      modifies `offset, `num_of_elems
      ensures Chained() && offset == offs && num_of_elems == n
    {
      offset, num_of_elems := offs, n;
    }

    /** An empty list has nothing to pop: the source decrements its count without a guard. */
    method PopBack()
      requires Valid() && Elems() != []
      modifies Repr
      ensures Valid() && Repr == old(Repr)
      ensures Elems() == old(Elems())[..|old(Elems())| - 1]
      ensures old(offset) != 0 ==> Stale() == [old(Elems())[|old(Elems())| - 1]] + old(Stale())
      ensures iter == old(iter) && iter_offs == old(iter_offs)
    {
      hide Listed, StaleLanes, Chained, FullLanes;
      ChainFacts();
      ghost var before, n := lanes, num_of_elems;
      ListedSize(before, n);
      ListedShrink(before, n);
      if offset == 0 {
        DropBucket();
        SetEnd(if head == null then 0 else ELEMS_IN_BUCKET - 1, num_of_elems - 1);
        ListedDropBucket(before);
      } else {
        SetEnd(offset - 1, num_of_elems - 1);
      }
      ChainFacts();
    }

    lemma SecondLane()
      requires Valid() && |Elems()| == 2
      ensures offset == 1
    {
      ListedSize(lanes, num_of_elems);
    }

    /** Bucket b of the chain, and how to tell it is the tail. */
    lemma BucketAt(b: nat)
      requires Chained() && b < |spine|
      ensures spine[b].elems.Length == 16 && spine[b].elems in Repr
      ensures forall l :: 0 <= l < 16 ==> spine[b].elems[l] == lanes[b][l]
      ensures spine[b] == tail <==> b == |spine| - 1
      ensures spine[b].next == if b == |spine| - 1 then null else spine[b + 1]
    {
    }

    lemma HeadAt()
      requires Chained()
      ensures head == if spine == [] then null else spine[0]
    {
    }

    /** The scalar search: stops at the end of the list. */
    method FindElement(el: int) returns (pom: Bucket?, pos: int, ghost b: nat)
      requires Valid()
      ensures pos == -1 <==> el !in Elems()
      ensures pos != -1 ==> b < |spine| && pom == spine[b] && 0 <= pos < 16 && 16 * b + pos == IndexOf(Elems(), el)
    {
      hide Listed, Chained, FullLanes;
      ChainFacts();
      HeadAt();
      ghost var s := Elems();
      ListedSize(lanes, num_of_elems);
      pom := head;
      var pom_offs := 0;
      b := 0;
      while pom != null && !(pom == tail && pom_offs == offset + 1)
        invariant b <= |spine| && 0 <= pom_offs < 16 + (if b == |spine| - 1 then 1 else 0)
        invariant pom == if b < |spine| then spine[b] else null
        invariant b < |spine| ==> 16 * b + pom_offs <= |s|
        invariant b == |spine| ==> pom_offs == 0
        invariant forall j :: 0 <= j < 16 * b + pom_offs && j < |s| ==> s[j] != el
        decreases |spine| - b, 17 - pom_offs
      {
        BucketAt(b);
        ListedAt(lanes, num_of_elems, b, pom_offs);
        if pom.elems[pom_offs] == el {
          IndexIsFirst(s, el, 16 * b + pom_offs);
          pos := pom_offs;
          return;
        }
        pom_offs := pom_offs + 1;
        if ELEMS_IN_BUCKET == pom_offs {
          pom_offs, pom, b := 0, pom.next, b + 1;
        }
      }
      pos := -1;
      if pom != null {
        BucketAt(b);
      }
    }

    /** The element is overwritten by the last one, which is then popped. */
    method Remove(el: int)
      requires Valid()
      modifies Repr
      ensures Valid() && Repr == old(Repr)
      ensures Elems() == SwapRemove(old(Elems()), el)
      ensures iter == old(iter) && iter_offs == old(iter_offs)
    {
      hide Listed, Chained, FullLanes;
      var pom, pos, b := FindElement(el);
      if pos == -1 {
        return;
      }
      OverwriteByLast(pom, pos, b);
      PopBack();
    }

    method OverwriteByLast(pom: Bucket, pos: nat, ghost b: nat)
      requires Valid() && b < |spine| && pom == spine[b] && pos < 16
      modifies Repr
      ensures Valid() && Repr == old(Repr) && |Elems()| == |old(Elems())| > 0
      ensures Elems() == LastAt(old(Elems()), 16 * b + pos)
      ensures iter == old(iter) && iter_offs == old(iter_offs)
    {
      hide Listed, FullLanes, Chained;
      ChainFacts();
      BucketAt(|spine| - 1);
      BucketAt(b);
      ListedAt(lanes, num_of_elems, |spine| - 1, offset);
      var last := tail.elems[offset];
      ListedOverwrite(lanes, num_of_elems, b, pos, last);
      StoreAt(pom, pos, b, last);
      ChainFacts();
    }

    method StoreAt(pom: Bucket, pos: nat, ghost b: nat, x: int)
      requires Chained() && b < |spine| && pom == spine[b] && pos < 16
      modifies this, Repr
      ensures Chained() && Repr == old(Repr) && spine == old(spine)
      ensures lanes == old(lanes)[b := old(lanes)[b][pos := x]]
      ensures offset == old(offset) && num_of_elems == old(num_of_elems)
      ensures iter == old(iter) && iter_offs == old(iter_offs)
    {
      pom.elems[pos] := x;
      lanes := lanes[b := lanes[b][pos := x]];
    }

    /** The vector search: 16 lanes at a time, also those behind the end of the list. */
    method FindElementVector(el: int) returns (pom: Bucket?, pos: int, ghost b: nat)
      requires Valid()
      ensures pos == -1 <==> el !in Elems() + Stale()
      ensures pos != -1 ==>
          b < |spine| && pom == spine[b] && 0 <= pos < 16 && 16 * b + pos == IndexOf(Elems() + Stale(), el)
    {
      hide Listed, Chained, FullLanes, StaleLanes;
      ChainFacts();
      HeadAt();
      ghost var s := Elems() + Stale();
      AllLanes(lanes, num_of_elems);
      pom, b := head, 0;
      while pom != null
        invariant b <= |spine| && pom == if b < |spine| then spine[b] else null
        invariant forall j :: 0 <= j < 16 * b ==> s[j] != el
        decreases |spine| - b
      {
        BucketAt(b);
        var load_vec: Vector := pom.elems[..];
        forall l | 0 <= l < 16 ensures s[16 * b + l] == load_vec[l] {
          LaneOf(lanes, num_of_elems, b, l);
        }
        var cmp_mask := CmpEq(load_vec, el);
        var first := Ctz(cmp_mask);
        forall j | 16 * b <= j < 16 * b + first ensures s[j] != el {
          assert !cmp_mask[j - 16 * b] && s[16 * b + (j - 16 * b)] == load_vec[j - 16 * b];
        }
        if first < 16 {
          IndexIsFirst(s, el, 16 * b + first);
          pos := first;
          return;
        }
        pom, b := pom.next, b + 1;
      }
      pos := -1;
    }

    /**
     Removal on the vector build. With the element absent but still in a stale lane, the last
     element is lost instead; otherwise it does what the scalar removal does.
     */
    method RemoveVector(el: int)
      requires Valid()
      modifies Repr
      ensures Valid() && Repr == old(Repr)
      ensures Elems() == if el !in old(Elems())
          && el in old(Stale()) then old(Elems())[..|old(Elems())| - 1] else SwapRemove(old(Elems()), el)
      ensures Elems() == SwapRemove(old(Elems()), el) <==> el in old(Elems()) || el !in old(Stale())
    {
      hide Listed, Chained, FullLanes, StaleLanes;
      ghost var s, stale := Elems(), Stale();
      var pom, pos, b := FindElementVector(el);
      if pos == -1 {
        IndexIsFirst(s, el, |s|);
        return;
      }
      if el in s {
        IndexOfConcat(s, stale, el);
      }
      OverwriteByLast(pom, pos, b);
      PopBack();
    }

    /** Load a bucket as a vector, with the mask of its listed lanes. */
    method LoadBucket(pom: Bucket, ghost b: nat) returns (v: Vector, mask: Mask)
      requires Valid() && b < |spine| && pom == spine[b]
      ensures forall l :: 0 <= l < 16 ==> (mask[l] <==> 16 * b + l < |Elems()|)
      ensures forall l :: 0 <= l < 16 && mask[l] ==> v[l] == Elems()[16 * b + l]
    {
      BucketAt(b);
      Count();
      ChainFacts();
      forall l | 0 <= l < 16 && 16 * b + l < num_of_elems ensures Elems()[16 * b + l] == lanes[b][l] {
        ListedAt(lanes, num_of_elems, b, l);
      }
      hide Listed, FullLanes, Chained;
      v := pom.elems[..];
      var last := if pom == tail then offset else ELEMS_IN_BUCKET - 1;
      mask := seq(16, l => l <= last);
    }

    lemma HeadFacts()
      requires Valid()
      ensures head == if spine == [] then null else spine[0]
    {
    }

    /** The buckets hold all elements. */
    lemma Covered()
      requires Valid()
      ensures |Elems()| <= 16 * |spine|
    {
      Count();
    }

    method NextBucket(pom: Bucket, ghost b: nat) returns (next: Bucket?)
      requires Valid() && b < |spine| && pom == spine[b]
      ensures next == if b + 1 < |spine| then spine[b + 1] else null
    {
      BucketAt(b);
      next := pom.next;
    }

    // --- traversal ---

    /** The cursor stands on element k; -1 before the first. */
    ghost predicate IterAt(k: int)
      reads this
    {
      -1 <= k < num_of_elems
      && (k == -1 ==> iter == null)
      && (0 <= k ==> k / 16 < |spine| && iter == spine[k / 16] && iter_offs == k % 16)
    }

    method SetIter(b: Bucket, offs: nat, ghost k: nat)
      requires Valid() && k / 16 < |spine| && b == spine[k / 16] && offs == k % 16 && k < num_of_elems
      modifies `iter, `iter_offs
      ensures Valid() && IterAt(k) && lanes == old(lanes) && num_of_elems == old(num_of_elems)
    {
      iter, iter_offs := b, offs;
    }

    method GetNext(ghost k: int) returns (v: int)
      requires Valid() && IterAt(k)
      modifies `iter, `iter_offs
      ensures Valid() && Elems() == old(Elems())
      ensures if k + 1 < |Elems()| then v == Elems()[k + 1] && IterAt(k + 1) else v == EMPTY_KEY && IterAt(k)
    {
      hide Listed, FullLanes, Chained;
      AtEnd(k);
      HeadAt();
      ChainFacts();
      ListedSize(lanes, num_of_elems);
      if head == null || (iter == tail && iter_offs == offset) {
        return EMPTY_KEY;
      }
      var next, offs := iter, iter_offs + 1;
      if iter == null {
        next, offs := head, 0;
      } else if ELEMS_IN_BUCKET == offs {
        BucketAt(k / 16);
        next, offs := iter.next, 0;
      }
      ListedAt(lanes, num_of_elems, (k + 1) / 16, (k + 1) % 16);
      BucketAt((k + 1) / 16);
      v := next.elems[offs];
      SetIter(next, offs, k + 1);
    }

    lemma AtEnd(k: int)
      requires Valid() && IterAt(k)
      ensures head == null || (iter == tail && iter_offs == offset) <==> k + 1 == num_of_elems
    {
    }

    method EndIter(ghost k: int) returns (r: bool)
      requires Valid() && IterAt(k)
      ensures r <==> k + 1 == |Elems()|
    {
      AtEnd(k);
      ListedSize(lanes, num_of_elems);
      r := head == null || (iter == tail && iter_offs == offset);
    }

    /** The elements in the order in which `for_each` hands them to its callback. */
    method ForEach() returns (visited: seq<int>)
      requires Valid()
      ensures visited == Elems()
    {
      hide Listed, Chained, FullLanes;
      ChainFacts();
      HeadAt();
      ghost var s := Elems();
      ListedSize(lanes, num_of_elems);
      visited := [];
      if head == null || num_of_elems == 0 {
        return;
      }
      var pom, pom_offs := head, 0;
      ghost var b := 0;
      while pom != null && !(pom == tail && pom_offs == offset + 1)
        invariant b <= |spine| && 0 <= pom_offs < 16 + (if b == |spine| - 1 then 1 else 0)
        invariant pom == if b < |spine| then spine[b] else null
        invariant |visited| == (if b < |spine| then 16 * b + pom_offs else |s|) && |visited| <= |s|
        invariant b == |spine| ==> pom_offs == 0
        invariant visited == s[..|visited|]
        decreases |spine| - b, 17 - pom_offs
      {
        BucketAt(b);
        ListedAt(lanes, num_of_elems, b, pom_offs);
        visited := visited + [pom.elems[pom_offs]];
        pom_offs := pom_offs + 1;
        if ELEMS_IN_BUCKET == pom_offs {
          pom_offs, pom, b := 0, pom.next, b + 1;
        }
      }
      if pom != null {
        BucketAt(b);
      }
    }

    // --- copying ---

    /** A copy shares no bucket with the original. */
    constructor Copy(other: UnrolledList)
      requires other.Valid()
      ensures Valid() && fresh(Repr) && Elems() == other.Elems() && iter == null
    {
      head, tail, offset, num_of_buckets, num_of_elems := null, null, 0, 0, 0;
      iter, iter_offs := null, 0;
      spine, lanes := [], [];
      Repr := {this};
      new;
      CopyList(other);
      SetEnd(other.offset, other.num_of_elems);
    }

    method CopyList(other: UnrolledList)
      requires other.Valid() && Chained() && spine == [] && this !in other.Repr && Repr !! other.Repr
      modifies Repr
      ensures Chained() && fresh(Repr - old(Repr)) && lanes == other.lanes
      ensures iter == old(iter)
    {
      hide Chained;
      other.ChainFacts();
      other.HeadAt();
      ChainFacts();
      var pom := other.head;
      ghost var b := 0;
      while pom != null
        invariant Chained() && fresh(Repr - old(Repr)) && iter == old(iter)
        invariant b <= |other.spine| && pom == if b < |other.spine| then other.spine[b] else null
        invariant lanes == other.lanes[..b] && Repr !! other.Repr
        decreases |other.spine| - b
      {
        other.BucketAt(b);
        ghost var copied := lanes;
        AddBucket();
        assert lanes[..|lanes| - 1] == copied;
        FillTail(pom.elems, other.lanes[b]);
        assert lanes == copied + [other.lanes[b]] == other.lanes[..b + 1];
        other.BucketAt(b);
        pom, b := pom.next, b + 1;
      }
      ChainFacts();
    }

    method FillTail(source: array<int>, ghost vals: seq<int>)
      requires Chained() && spine != [] && source !in Repr && source.Length == 16 == |vals|
      requires forall l :: 0 <= l < 16 ==> source[l] == vals[l]
      modifies Repr
      ensures Chained() && Repr == old(Repr) && iter == old(iter)
      ensures lanes == old(lanes)[..|old(lanes)| - 1] + [vals]
    {
      ghost var last := |lanes| - 1;
      for i := 0 to 16
        invariant Chained() && Repr == old(Repr) && iter == old(iter) && spine == old(spine)
        invariant |lanes| == last + 1 && lanes[..last] == old(lanes)[..last]
        invariant forall l :: 0 <= l < i ==> lanes[last][l] == vals[l]
        invariant forall l :: 0 <= l < 16 ==> source[l] == vals[l]
      {
        tail.elems[i] := source[i];
        lanes := lanes[last := lanes[last][i := source[i]]];
      }
      assert lanes[last] == vals;
    }
  }

  /** The stale lanes do mislead: removing b, which is gone already, takes a along, as the scalar removal would not. */
  method StaleLaneMisleads(a: int, b: int) returns (list: UnrolledList)
    requires a != b
    ensures list.Valid() && list.Elems() == [] && SwapRemove([a], b) == [a]
  {
    hide UnrolledList.Valid, UnrolledList.Elems, UnrolledList.Stale;
    list := new UnrolledList();
    list.PushBack(a);
    list.PushBack(b);
    list.SecondLane();
    list.PopBack();
    list.RemoveVector(b);
  }
}
