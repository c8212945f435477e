/**
 Clique-size histograms: what one worker records, and the merge at the end of the run.
 */
module Histograms {
  import opened Cliques

  type Histogram = map<nat, nat>

  function CountAt(h: Histogram, k: nat): nat {
    if k in h then h[k] else 0
  }

  /** How many of the stored cliques have size k. */
  ghost function OfSize(log: seq<set<Vertex>>, k: nat): nat {
    if log == [] then 0 else OfSize(log[..|log| - 1], k) + if |log[|log| - 1]| == k then 1 else 0
  }

  ghost predicate Tallies(h: Histogram, log: seq<set<Vertex>>) {
    forall k: nat :: CountAt(h, k) == OfSize(log, k)
  }

  /** h lists just the sizes that occur, each with the number of stored cliques of that size. */
  ghost predicate Describes(h: Histogram, log: seq<set<Vertex>>) {
    Tallies(h, log) && forall k: nat :: k in h <==> OfSize(log, k) > 0
  }

  /** A size is listed exactly if some stored clique has it. */
  lemma {:induction false} SizesThatOccur(log: seq<set<Vertex>>, k: nat)
    ensures OfSize(log, k) > 0 <==> exists i :: 0 <= i < |log| && |log[i]| == k
    decreases |log|
  {
    if log != [] {
      var init := log[..|log| - 1];
      SizesThatOccur(init, k);
      if i :| 0 <= i < |init| && |init[i]| == k {
        assert log[i] == init[i];
      }
    }
  }

  lemma {:induction false} OfSizeConcat(a: seq<set<Vertex>>, b: seq<set<Vertex>>, k: nat)
    ensures OfSize(a + b, k) == OfSize(a, k) + OfSize(b, k)
    decreases |b|
  {
    if b == [] {
      assert a + b == a;
    } else {
      OfSizeConcat(a, b[..|b| - 1], k);
      assert (a + b)[..|a + b| - 1] == a + b[..|b| - 1];
    }
  }

  ghost function SizeClass(F: Family, k: nat): Family {
    set C | C in F && |C| == k
  }

  /** A log that lists each clique of F once has, at each size, as many entries as F has cliques. */
  lemma {:induction false} OnceEachCounts(log: seq<set<Vertex>>, F: Family, k: nat)
    requires multiset(log) == multiset(F)
    ensures OfSize(log, k) == |SizeClass(F, k)|
    decreases |log|
  {
    if log == [] {
      forall C ensures C !in SizeClass(F, k) {
        assert C in multiset(F) <==> C in F;
      }
    } else {
      var C, rest := log[|log| - 1], log[..|log| - 1];
      assert log == rest + [C];
      assert C in multiset(log);
      assert C in F;
      assert multiset(log) == multiset(rest) + multiset{C};
      forall D ensures multiset(rest)[D] == multiset(F - {C})[D] {
        assert multiset(log)[D] == multiset(F)[D];
        assert D in multiset(F) <==> D in F;
      }
      OnceEachCounts(rest, F - {C}, k);
      if |C| == k {
        assert SizeClass(F, k) == SizeClass(F - {C}, k) + {C};
      } else {
        assert SizeClass(F, k) == SizeClass(F - {C}, k);
      }
    }
  }

  // --- the merge of the per-worker histograms ---

  ghost function SumAt(hs: seq<Histogram>, k: nat): nat {
    if hs == [] then 0 else SumAt(hs[..|hs| - 1], k) + CountAt(hs[|hs| - 1], k)
  }

  /** Some worker lists the size k. */
  ghost predicate ListedIn(hs: seq<Histogram>, k: nat) {
    exists i :: 0 <= i < |hs| && k in hs[i]
  }

  lemma ListedInOneMore(hs: seq<Histogram>, i: nat, k: nat)
    requires i < |hs|
    ensures ListedIn(hs[..i + 1], k) <==> ListedIn(hs[..i], k) || k in hs[i]
  {
    if k in hs[i] {
      assert k in hs[..i + 1][i];
    }
    if j :| 0 <= j < i && k in hs[..i][j] {
      assert k in hs[..i + 1][j];
    }
  }

  lemma SumAtOneMore(hs: seq<Histogram>, i: nat)
    requires i < |hs|
    ensures forall k: nat :: SumAt(hs[..i + 1], k) == SumAt(hs[..i], k) + CountAt(hs[i], k)
  {
    assert hs[..i + 1][..i] == hs[..i];
  }

  /** The sum of all entries of h, over its keys in any order. */
  ghost function Total(h: Histogram, keys: set<nat>): nat
    requires keys <= h.Keys
    decreases keys
  {
    if keys == {} then 0 else
      var k :| k in keys;
      h[k] + Total(h, keys - {k})
  }

  lemma {:induction false} TotalSplits(h: Histogram, keys: set<nat>, k: nat)
    requires keys <= h.Keys && k in keys
    ensures Total(h, keys) == h[k] + Total(h, keys - {k})
    decreases keys
  {
    var c :| c in keys && Total(h, keys) == h[c] + Total(h, keys - {c});
    if c != k {
      TotalSplits(h, keys - {c}, k);
      TotalSplits(h, keys - {k}, c);
      assert keys - {c} - {k} == keys - {k} - {c};
    }
  }

  /** The merge: the sizes that some worker lists, each with the sum over the workers; and the sum of everything. */
  method MergeHistograms(hs: seq<Histogram>) returns (merged: Histogram, maxClqNum: nat)
    ensures forall k: nat :: k in merged <==> exists i :: 0 <= i < |hs| && k in hs[i]
    ensures forall k: nat :: CountAt(merged, k) == SumAt(hs, k)
    ensures maxClqNum == Total(merged, merged.Keys)
  {
    hide Total, ListedIn, SumAt;
    merged, maxClqNum := map[], 0;
    NothingMerged(merged);
    for i := 0 to |hs|
      invariant forall k: nat :: CountAt(merged, k) == SumAt(hs[..i], k)
      invariant forall k: nat :: k in merged <==> ListedIn(hs[..i], k)
      invariant maxClqNum == Total(merged, merged.Keys)
    {
      ghost var before := merged;
      var rest := hs[i].Keys;
      while rest != {}
        invariant rest <= hs[i].Keys
        invariant forall k: nat :: CountAt(merged, k) == CountAt(before, k) + if k in rest then 0 else CountAt(hs[i], k)
        invariant merged.Keys == before.Keys + (hs[i].Keys - rest)
        invariant maxClqNum == Total(merged, merged.Keys)
        decreases rest
      {
        var k :| k in rest;
        rest := rest - {k};
        maxClqNum := maxClqNum + hs[i][k];
        TotalAfterAdd(merged, k, hs[i][k]);
        merged := merged[k := CountAt(merged, k) + hs[i][k]];
      }
      forall k: nat ensures k in merged <==> ListedIn(hs[..i + 1], k) {
        ListedInOneMore(hs, i, k);
      }
      SumAtOneMore(hs, i);
    }
    assert hs[..|hs|] == hs;
    ListedWhere(hs);
  }

  lemma NothingMerged(h: Histogram)
    requires h == map[]
    ensures Total(h, h.Keys) == 0
    ensures forall k: nat :: SumAt([], k) == 0 && !ListedIn([], k)
  {
  }

  lemma ListedWhere(hs: seq<Histogram>)
    ensures forall k: nat :: ListedIn(hs, k) <==> exists i :: 0 <= i < |hs| && k in hs[i]
  {
  }

  lemma TotalAfterAdd(h: Histogram, k: nat, n: nat)
    ensures var h' := h[k := CountAt(h, k) + n]; Total(h', h'.Keys) == Total(h, h.Keys) + n
  {
    var h' := h[k := CountAt(h, k) + n];
    assert h'.Keys == h.Keys + {k};
    TotalSplits(h', h'.Keys, k);
    TotalFrame(h, h', h.Keys - {k});
    if k in h {
      TotalSplits(h, h.Keys, k);
      assert h'.Keys - {k} == h.Keys - {k};
    } else {
      assert h'.Keys - {k} == h.Keys && h.Keys - {k} == h.Keys;
    }
  }

  lemma {:induction false} TotalFrame(h: Histogram, h': Histogram, keys: set<nat>)
    requires keys <= h.Keys && keys <= h'.Keys && forall k :: k in keys ==> h[k] == h'[k]
    ensures Total(h, keys) == Total(h', keys)
    decreases keys
  {
    if k :| k in keys {
      TotalSplits(h, keys, k);
      TotalSplits(h', keys, k);
      TotalFrame(h, h', keys - {k});
    } else {
      assert keys == {};
    }
  }

  /** The entries of a histogram add up to the number of cliques it describes. */
  lemma {:induction false} TotalIsLength(h: Histogram, log: seq<set<Vertex>>)
    requires Tallies(h, log)
    ensures Total(h, h.Keys) == |log|
    decreases |log|
  {
    if log == [] {
      AllZero(h, h.Keys);
    } else {
      var init, k := log[..|log| - 1], |log[|log| - 1]|;
      assert CountAt(h, k) == OfSize(log, k) == OfSize(init, k) + 1;
      var h' := h[k := h[k] - 1];
      forall j: nat ensures CountAt(h', j) == OfSize(init, j) {
        assert CountAt(h, j) == OfSize(log, j);
      }
      TotalIsLength(h', init);
      TotalAfterAdd(h', k, 1);
      assert h'[k := CountAt(h', k) + 1] == h;
    }
  }

  lemma {:induction false} AllZero(h: Histogram, keys: set<nat>)
    requires keys <= h.Keys && Tallies(h, [])
    ensures Total(h, keys) == 0
    decreases keys
  {
    if k :| k in keys {
      assert CountAt(h, k) == OfSize([], k);
      TotalSplits(h, keys, k);
      AllZero(h, keys - {k});
    } else {
      assert keys == {};
    }
  }
}
