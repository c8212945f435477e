/** Powers of two. */
module Powers {

  function Pow2(n: nat): nat {
    if n == 0 then 1 else 2 * Pow2(n - 1)
  }

  lemma Pow2Step(n: nat)
    ensures Pow2(n + 1) == 2 * Pow2(n)
  {
  }

  lemma {:induction false} Pow2Positive(n: nat)
    ensures Pow2(n) >= 1
  {
    if n > 0 {
      Pow2Positive(n - 1);
    }
  }

  lemma {:induction false} Pow2Monotone(p: nat, q: nat)
    requires p <= q
    ensures 1 <= Pow2(p) <= Pow2(q)
    decreases q
  {
    Pow2Positive(p);
    if p < q {
      Pow2Monotone(p, q - 1);
    }
  }

  lemma {:induction false} Pow2Sum(p: nat, q: nat)
    ensures Pow2(p + q) == Pow2(p) * Pow2(q)
    decreases p
  {
    if p > 0 {
      Pow2Sum(p - 1, q);
      Pow2Step(p - 1 + q);
      Pow2Step(p - 1);
      hide Pow2;
      var a, b := Pow2(p - 1), Pow2(q);
      assert 2 * (a * b) == (2 * a) * b;
    }
  }

  lemma Pow2Of32()
    ensures Pow2(32) == 0x1_0000_0000
  {
    assert Pow2(8) == 256;
    Pow2Sum(8, 8);
    hide Pow2;
    Pow2Sum(16, 16);
  }

  /** The number of binary digits: 32 minus the leading zeros of a 32-bit word. */
  function BitLength(n: nat): nat {
    if n == 0 then 0 else 1 + BitLength(n / 2)
  }

  lemma {:induction false} BitLengthBounds(n: nat)
    requires n >= 1
    ensures BitLength(n) >= 1
    ensures Pow2(BitLength(n) - 1) <= n < Pow2(BitLength(n))
  {
    if n > 1 {
      BitLengthBounds(n / 2);
    } else {
      assert BitLength(1) == 1 + BitLength(0);
      assert Pow2(1) == 2;
    }
  }

  /** The bounds pin the length down. */
  lemma BitLengthUnique(n: nat, w: nat)
    requires n >= 1 && w >= 1 && Pow2(w - 1) <= n < Pow2(w)
    ensures BitLength(n) == w
  {
    hide Pow2, BitLength;
    BitLengthBounds(n);
    if BitLength(n) < w {
      Pow2Monotone(BitLength(n), w - 1);
    } else if BitLength(n) > w {
      Pow2Monotone(w, BitLength(n) - 1);
    }
  }
}
