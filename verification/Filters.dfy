/** The order-preserving filter that intersection and difference compute. */
module Filters {
  import opened Keys
  import opened FiniteSets
  import opened Lanes

  /** The elements of s that are (keep) or are not (!keep) in S, in order. */
  function Filter(s: seq<Key>, S: set<Key>, keep: bool): seq<Key> {
    if s == [] then [] else
      Filter(s[..|s| - 1], S, keep) + if (s[|s| - 1] in S) == keep then [s[|s| - 1]] else []
  }

  lemma FilterEmpty(s: seq<Key>, S: set<Key>, keep: bool)
    ensures Filter(s[..0], S, keep) == []
  {
  }

  lemma FilterStep(s: seq<Key>, S: set<Key>, keep: bool, i: nat)
    requires i < |s|
    ensures Filter(s[..i + 1], S, keep) == Filter(s[..i], S, keep) + if (s[i] in S) == keep then [s[i]] else []
  {
    assert s[..i + 1][..i] == s[..i];
  }

  /** A filtered list is the intersection or the difference, without new duplicates. */
  lemma {:induction false} FilterIsSetOperation(s: seq<Key>, S: set<Key>, keep: bool)
    ensures ToSet(Filter(s, S, keep)) == if keep then ToSet(s) * S else ToSet(s) - S
    ensures NoDups(s) ==> NoDups(Filter(s, S, keep))
    decreases |s|
  {
    if s != [] {
      var init := s[..|s| - 1];
      FilterIsSetOperation(init, S, keep);
      assert s == init + [s[|s| - 1]];
      var f := Filter(init, S, keep);
      assert forall x :: x in f <==> x in ToSet(f);
      if NoDups(s) {
        assert s[|s| - 1] !in init;
        assert s[|s| - 1] !in f;
        assert NoDups(init);
      }
    }
  }

  /** Only the listed elements of S matter. */
  lemma {:induction false} FilterAgrees(s: seq<Key>, S: set<Key>, T: set<Key>, keep: bool)
    requires forall x :: x in s ==> (x in S <==> x in T)
    ensures Filter(s, S, keep) == Filter(s, T, keep)
    decreases |s|
  {
    if s != [] {
      var init := s[..|s| - 1];
      assert forall x :: x in init ==> x in s;
      FilterAgrees(init, S, T, keep);
    }
  }

  lemma FilterSelects(s: seq<Key>, S: set<Key>, keep: bool)
    ensures forall x :: x in Filter(s, S, keep) ==> x in s
  {
    FilterIsSetOperation(s, S, keep);
    assert forall x :: x in Filter(s, S, keep) ==> x in ToSet(Filter(s, S, keep)) && x in ToSet(s);
  }

  /** Swap-removal of a listed key removes it from the set. */
  lemma SwapRemoveIsRemoval(s: seq<Key>, el: Key)
    requires NoDups(s)
    ensures var t := SwapRemove(s, el);
            && (forall x :: x in t ==> x in s && x != el)
            && (forall x :: x in s && x != el ==> x in t)
            && (forall i, j :: 0 <= i < j < |t| ==> t[i] != t[j])
  {
    var i, t := IndexOf(s, el), SwapRemove(s, el);
    if i < |s| {
      forall x | x in s && x != el ensures x in t {
        var k :| 0 <= k < |s| && s[k] == x;
        assert t[if k == |s| - 1 then i else k] == x;
      }
    }
  }

  lemma FilterSize(s: seq<Key>, S: set<Key>)
    requires NoDups(s)
    ensures |Filter(s, S, true)| == |ToSet(s) * S|
  {
    FilterIsSetOperation(s, S, true);
    NoDupsSize(Filter(s, S, true));
  }
}
