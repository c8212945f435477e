/**
 The contents of a chain of 16-lane buckets, as values: the lanes in order are the list, followed
 by the stale lanes of the last bucket.
 */
module Lanes {

  ghost predicate FullLanes(lanes: seq<seq<int>>) {
    forall b :: 0 <= b < |lanes| ==> |lanes[b]| == 16
  }

  ghost function Flat(lanes: seq<seq<int>>): seq<int> {
    if lanes == [] then [] else Flat(lanes[..|lanes| - 1]) + lanes[|lanes| - 1]
  }

  lemma {:induction false} FlatLength(lanes: seq<seq<int>>)
    requires FullLanes(lanes)
    ensures |Flat(lanes)| == 16 * |lanes|
    decreases |lanes|
  {
    if lanes != [] {
      FlatLength(lanes[..|lanes| - 1]);
    }
  }

  lemma FlatAppend(lanes: seq<seq<int>>, bucket: seq<int>)
    ensures Flat(lanes + [bucket]) == Flat(lanes) + bucket
  {
    assert (lanes + [bucket])[..|lanes|] == lanes;
  }

  lemma FlatDropLast(lanes: seq<seq<int>>)
    requires FullLanes(lanes) && lanes != []
    ensures Flat(lanes) == Flat(lanes[..|lanes| - 1]) + lanes[|lanes| - 1]
    ensures |Flat(lanes[..|lanes| - 1])| == 16 * (|lanes| - 1)
  {
    FlatLength(lanes[..|lanes| - 1]);
  }

  lemma {:induction false} FlatAt(lanes: seq<seq<int>>, b: nat, l: nat)
    requires FullLanes(lanes) && b < |lanes| && l < 16
    ensures |Flat(lanes)| == 16 * |lanes| && Flat(lanes)[16 * b + l] == lanes[b][l]
    decreases |lanes|
  {
    FlatLength(lanes);
    FlatDropLast(lanes);
    if b < |lanes| - 1 {
      FlatAt(lanes[..|lanes| - 1], b, l);
    }
  }

  lemma {:induction false} FlatUpdate(lanes: seq<seq<int>>, b: nat, l: nat, x: int)
    requires FullLanes(lanes) && b < |lanes| && l < 16
    ensures |Flat(lanes)| == 16 * |lanes|
    ensures Flat(lanes[b := lanes[b][l := x]]) == Flat(lanes)[16 * b + l := x]
    decreases |lanes|
  {
    FlatLength(lanes);
    FlatDropLast(lanes);
    var lanes' := lanes[b := lanes[b][l := x]];
    FlatDropLast(lanes');
    var init := lanes[..|lanes| - 1];
    if b < |lanes| - 1 {
      FlatUpdate(init, b, l, x);
      assert lanes'[..|lanes| - 1] == init[b := init[b][l := x]];
    } else {
      assert lanes'[..|lanes| - 1] == init;
    }
  }

  /** The first n lanes. */
  ghost function Listed(lanes: seq<seq<int>>, n: nat): seq<int>
    requires FullLanes(lanes) && n <= 16 * |lanes|
  {
    FlatLength(lanes);
    Flat(lanes)[..n]
  }

  /** The lanes behind the first n. */
  ghost function StaleLanes(lanes: seq<seq<int>>, n: nat): seq<int>
    requires FullLanes(lanes) && n <= 16 * |lanes|
  {
    FlatLength(lanes);
    Flat(lanes)[n..]
  }

  lemma ListedSize(lanes: seq<seq<int>>, n: nat)
    requires FullLanes(lanes) && n <= 16 * |lanes|
    ensures |Listed(lanes, n)| == n
  {
    FlatLength(lanes);
  }

  lemma ListedAt(lanes: seq<seq<int>>, n: nat, b: nat, l: nat)
    requires FullLanes(lanes) && n <= 16 * |lanes| && b < |lanes| && l < 16
    ensures |Listed(lanes, n)| == n
    ensures 16 * b + l < n ==> Listed(lanes, n)[16 * b + l] == lanes[b][l]
  {
    FlatAt(lanes, b, l);
  }

  /** A full chain gets a new bucket. */
  lemma ListedNewBucket(lanes: seq<seq<int>>, bucket: seq<int>)
    requires FullLanes(lanes) && |bucket| == 16
    ensures FullLanes(lanes + [bucket])
    ensures Listed(lanes + [bucket], 16 * |lanes| + 1) == Listed(lanes, 16 * |lanes|) + [bucket[0]]
  {
    FlatLength(lanes);
    FlatAppend(lanes, bucket);
  }

  /** An element stored in the next lane of the last bucket. */
  lemma ListedStore(lanes: seq<seq<int>>, b: nat, l: nat, el: int)
    requires FullLanes(lanes) && b < |lanes| && l < 16
    ensures FullLanes(lanes[b := lanes[b][l := el]])
    ensures Listed(lanes[b := lanes[b][l := el]], 16 * b + l + 1) == Listed(lanes, 16 * b + l) + [el]
  {
    FlatUpdate(lanes, b, l, el);
  }

  /** Removal as the list does it: the first occurrence is overwritten by the last element. */
  function IndexOf(s: seq<int>, el: int): (i: nat)
    ensures i <= |s|
    ensures i < |s| ==> s[i] == el
    ensures forall j :: 0 <= j < i ==> s[j] != el
  {
    if s == [] then 0 else if s[0] == el then 0 else 1 + IndexOf(s[1..], el)
  }

  /** The last element copied to position i, if that is listed. */
  function LastAt(s: seq<int>, i: nat): seq<int> {
    if i < |s| then s[i := s[|s| - 1]] else s
  }

  function SwapRemove(s: seq<int>, el: int): seq<int> {
    var i := IndexOf(s, el);
    if i == |s| then s else s[i := s[|s| - 1]][..|s| - 1]
  }

  lemma IndexIsFirst(s: seq<int>, el: int, i: nat)
    requires i <= |s| && (forall j :: 0 <= j < i ==> s[j] != el) && (i < |s| ==> s[i] == el)
    ensures IndexOf(s, el) == i
  {
  }

  /** Overwriting a listed lane. */
  lemma ListedOverwrite(lanes: seq<seq<int>>, n: nat, b: nat, l: nat, x: int)
    requires FullLanes(lanes) && n <= 16 * |lanes| && b < |lanes| && l < 16
    ensures FullLanes(lanes[b := lanes[b][l := x]]) && |Listed(lanes, n)| == n
    ensures 16 * b + l < n ==> Listed(lanes[b := lanes[b][l := x]], n) == Listed(lanes, n)[16 * b + l := x]
    ensures 16 * b + l >= n ==> Listed(lanes[b := lanes[b][l := x]], n) == Listed(lanes, n)
  {
    FlatUpdate(lanes, b, l, x);
  }

  lemma ListedShrink(lanes: seq<seq<int>>, n: nat)
    requires FullLanes(lanes) && 1 <= n <= 16 * |lanes|
    ensures |Listed(lanes, n)| == n && Listed(lanes, n - 1) == Listed(lanes, n)[..n - 1]
    ensures StaleLanes(lanes, n - 1) == [Listed(lanes, n)[n - 1]] + StaleLanes(lanes, n)
  {
    FlatLength(lanes);
  }

  /** The last bucket can go once only its lane 0 was listed. */
  lemma ListedDropBucket(lanes: seq<seq<int>>)
    requires FullLanes(lanes) && lanes != []
    ensures FullLanes(lanes[..|lanes| - 1])
    ensures Listed(lanes[..|lanes| - 1], 16 * (|lanes| - 1)) == Listed(lanes, 16 * (|lanes| - 1))
  {
    FlatLength(lanes);
    FlatDropLast(lanes);
  }

  /** Listed and stale lanes together are all lanes. */
  lemma LaneOf(lanes: seq<seq<int>>, n: nat, b: nat, l: nat)
    requires FullLanes(lanes) && n <= 16 * |lanes| && b < |lanes| && l < 16
    ensures |Listed(lanes, n)| == n && |StaleLanes(lanes, n)| == 16 * |lanes| - n
    ensures lanes[b][l] == (Listed(lanes, n) + StaleLanes(lanes, n))[16 * b + l]
  {
    FlatAt(lanes, b, l);
  }

  lemma AllLanes(lanes: seq<seq<int>>, n: nat)
    requires FullLanes(lanes) && n <= 16 * |lanes|
    ensures |Listed(lanes, n)| == n && |StaleLanes(lanes, n)| == 16 * |lanes| - n
  {
    FlatLength(lanes);
  }

  lemma IndexOfConcat(s: seq<int>, t: seq<int>, el: int)
    requires el in s
    ensures IndexOf(s + t, el) == IndexOf(s, el) < |s|
  {
    IndexIsFirst(s + t, el, IndexOf(s, el));
  }
}
