/**
 The arithmetic behind the bound on the number of leaf calls: MaxLeaves(p) is the largest m with
 m * m * m <= 3^p, and branching k ways into problems of size at most p - k stays within it.
 */
module LeafBound {

  function Pow3(n: nat): (r: nat)
    ensures r >= 1
  {
    if n == 0 then 1 else 3 * Pow3(n - 1)
  }

  function Cube(n: nat): nat {
    n * n * n
  }

  lemma CubeMonotone(a: nat, b: nat)
    requires a <= b
    ensures Cube(a) <= Cube(b)
  {
    assert a * a <= b * b;
    assert a * a * a <= b * b * b;
  }

  lemma CubeOfProduct(a: nat, b: nat)
    ensures Cube(a * b) == Cube(a) * Cube(b)
  {
    calc {
      (a * b) * (a * b) * (a * b);
      (a * a * a) * (b * b * b);
    }
  }

  /** The integer cube root. */
  function Root3(n: nat): nat {
    if n == 0 then 0 else if Cube(Root3(n - 1) + 1) <= n then Root3(n - 1) + 1 else Root3(n - 1)
  }

  lemma {:induction false} Root3IsFloor(n: nat)
    ensures Cube(Root3(n)) <= n < Cube(Root3(n) + 1)
  {
    if n > 0 {
      Root3IsFloor(n - 1);
      CubeStep(Root3(n - 1) + 1);
    }
  }

  lemma CubeStep(r: nat)
    ensures Cube(r) + 1 <= Cube(r + 1)
  {
    assert Cube(r + 1) == Cube(r) + 3 * r * r + 3 * r + 1;
  }

  function MaxLeaves(p: nat): nat {
    Root3(Pow3(p))
  }

  /** The cube of MaxLeaves(p) is at most 3^p, and anything whose cube is at most 3^p is within it. */
  lemma MaxLeavesIsFloor(p: nat, m: nat)
    ensures Cube(MaxLeaves(p)) <= Pow3(p)
    ensures Cube(m) <= Pow3(p) <==> m <= MaxLeaves(p)
  {
    Root3IsFloor(Pow3(p));
    if m <= MaxLeaves(p) {
      CubeMonotone(m, MaxLeaves(p));
    } else {
      CubeMonotone(MaxLeaves(p) + 1, m);
    }
  }

  lemma AtLeastOneLeaf(p: nat)
    ensures MaxLeaves(p) >= 1
  {
    MaxLeavesIsFloor(p, 1);
    assert Cube(1) == 1;
  }

  lemma {:induction false} Pow3Monotone(p: nat, q: nat)
    requires p <= q
    ensures Pow3(p) <= Pow3(q)
    decreases q
  {
    if p < q {
      Pow3Monotone(p, q - 1);
    }
  }

  lemma MaxLeavesMonotone(p: nat, q: nat)
    requires p <= q
    ensures MaxLeaves(p) <= MaxLeaves(q)
  {
    Pow3Monotone(p, q);
    MaxLeavesIsFloor(p, 0);
    MaxLeavesIsFloor(q, MaxLeaves(p));
  }

  lemma {:induction false} Pow3Sum(a: nat, b: nat)
    ensures Pow3(a + b) == Pow3(a) * Pow3(b)
    decreases a
  {
    if a == 0 {
    } else {
      Pow3Sum(a - 1, b);
      assert Pow3(a + b) == 3 * Pow3(a - 1 + b);
      assert 3 * (Pow3(a - 1) * Pow3(b)) == (3 * Pow3(a - 1)) * Pow3(b);
    }
  }

  lemma CubeTriples(j: nat)
    requires 4 <= j
    ensures Cube(j + 1) <= 3 * Cube(j)
  {
    var s := j * j;
    assert 4 * j <= s;
    assert 4 * s <= s * j;
    calc {
      Cube(j + 1);
      (s + 2 * j + 1) * (j + 1);
      s * j + 3 * s + 3 * j + 1;
    }
  }

  /** k^3 <= 3^k: the heart of the bound, tight at k = 3. */
  lemma {:induction false} CubeBelowPow3(k: nat)
    requires 1 <= k
    ensures Cube(k) <= Pow3(k)
  {
    if k <= 4 {
      assert Pow3(1) == 3;
      assert Pow3(2) == 9;
      assert Pow3(3) == 27;
      assert Pow3(4) == 81;
    } else {
      CubeBelowPow3(k - 1);
      CubeTriples(k - 1);
    }
  }

  /** k branches, each on a problem of size at most p - k. */
  lemma Branching(k: nat, p: nat)
    requires 1 <= k <= p
    ensures k * MaxLeaves(p - k) <= MaxLeaves(p)
  {
    var m := MaxLeaves(p - k);
    CubeBelowPow3(k);
    Pow3Sum(k, p - k);
    CubeOfProduct(k, m);
    MaxLeavesIsFloor(p - k, m);
    ProductMonotone(Cube(k), Pow3(k), Cube(m), Pow3(p - k));
    MaxLeavesIsFloor(p, k * m);
  }

  lemma ProductMonotone(a: nat, b: nat, c: nat, d: nat)
    requires a <= b && c <= d
    ensures a * c <= b * d
  {
  }
}
