/** Sizes and listings of finite sets. */
module FiniteSets {

  lemma {:induction false} SubsetSize<T>(A: set<T>, B: set<T>)
    requires A <= B
    ensures |A| <= |B|
    ensures |A| == |B| ==> A == B
    decreases A
  {
    if a :| a in A {
      SubsetSize(A - {a}, B - {a});
      assert A == (A - {a}) + {a} && B == (B - {a}) + {a};
    } else {
      assert A == {};
      assert |B| == 0 ==> B == {};
    }
  }

  /** vs lists the elements of S, each once. */
  ghost predicate Enumerates<T(!new)>(vs: seq<T>, S: set<T>) {
    && (forall i :: 0 <= i < |vs| ==> vs[i] in S)
    && (forall v :: v in S ==> exists i :: 0 <= i < |vs| && vs[i] == v)
    && (forall i, j :: 0 <= i < j < |vs| ==> vs[i] != vs[j])
  }

  ghost function ToSet<T>(s: seq<T>): set<T> {
    set x | x in s
  }

  lemma EnumeratesItsSet<T(!new)>(vs: seq<T>, S: set<T>)
    requires Enumerates(vs, S)
    ensures ToSet(vs) == S && NoDups(vs)
  {
  }

  lemma EnumerationSize<T(!new)>(vs: seq<T>, S: set<T>)
    requires Enumerates(vs, S)
    ensures |vs| == |S|
  {
    EnumeratesItsSet(vs, S);
    NoDupsSize(vs);
  }

  ghost predicate NoDups<T>(s: seq<T>) {
    forall i, j :: 0 <= i < j < |s| ==> s[i] != s[j]
  }

  lemma {:induction false} NoDupsSize<T>(s: seq<T>)
    requires NoDups(s)
    ensures |ToSet(s)| == |s|
    decreases |s|
  {
    if s != [] {
      var init, x := s[..|s| - 1], s[|s| - 1];
      NoDupsSize(init);
      assert s == init + [x];
      assert x !in init;
      assert ToSet(s) == ToSet(init) + {x};
    }
  }

  lemma PrefixSet<T>(s: seq<T>, i: nat)
    requires i < |s|
    ensures ToSet(s[..i + 1]) == ToSet(s[..i]) + {s[i]}
    ensures NoDups(s) ==> s[i] !in ToSet(s[..i])
  {
    assert s[..i + 1] == s[..i] + [s[i]];
  }

  lemma PrefixAll<T>(s: seq<T>)
    ensures s[..0] == [] && ToSet(s[..0]) == {} && s[..|s|] == s
  {
  }

  lemma {:induction false} ListedSetSize<T>(s: seq<T>)
    ensures |ToSet(s)| <= |s|
    decreases |s|
  {
    if s != [] {
      var init, x := s[..|s| - 1], s[|s| - 1];
      ListedSetSize(init);
      assert s == init + [x];
      assert ToSet(s) == ToSet(init) + {x};
    }
  }

  lemma EnumeratesNothing<T(!new)>()
    ensures Enumerates<T>([], {})
  {
  }

  function EnumerateOneMore<T(!new, ==)>(vs: seq<T>, ghost S: set<T>, k: T): (r: seq<T>)
    requires Enumerates(vs, S) && k !in S
    ensures Enumerates(r, S + {k})
  {
    ghost var r := vs + [k];
    assert forall v :: v in S + {k} ==> exists i :: 0 <= i < |r| && r[i] == v by {
      forall v | v in S + {k} ensures exists i :: 0 <= i < |r| && r[i] == v {
        if v == k {
          assert r[|vs|] == v;
        } else {
          var i :| 0 <= i < |vs| && vs[i] == v;
          assert r[i] == v;
        }
      }
    }
    vs + [k]
  }
}
