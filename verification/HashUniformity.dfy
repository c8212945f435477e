/** The multiplicative hash spreads the 2^32 words evenly: an odd multiplier permutes them. */
module HashUniformity {
  import opened Powers
  import opened FiniteSets
  import opened Hopscotch

  // --- an odd factor can be cancelled modulo a power of two ---

  /** If 2^w divides a * d and a is odd, 2^w divides d. */
  lemma {:induction false} OddCancels(a: nat, d: int, w: nat, k: int) returns (m: int)
    requires a % 2 == 1 && a * d == k * Pow2(w)
    ensures d == m * Pow2(w)
    decreases w
  {
    if w == 0 {
      m := d;
    } else {
      var half := Pow2(w - 1);
      assert a * d == 2 * (k * half) by { assert k * (2 * half) == 2 * (k * half); }
      EvenFactor(a, d, k * half);
      var e := d / 2;
      assert a * e == k * half by { assert a * (2 * e) == 2 * (a * e); }
      m := OddCancels(a, e, w - 1, k);
      assert 2 * (m * half) == m * (2 * half);
    }
  }

  lemma EvenFactor(a: nat, d: int, h: int)
    requires a % 2 == 1 && a * d == 2 * h
    ensures d % 2 == 0
  {
    var q := a / 2;
    assert a == 2 * q + 1;
    assert a * d == 2 * (q * d) + d;
  }

  lemma Congruent(u: nat, v: nat, n: nat) returns (k: int)
    requires n >= 1 && u % n == v % n
    ensures u - v == k * n
  {
    k := u / n - v / n;
    var r := u % n;
    assert u == (u / n) * n + r && v == (v / n) * n + r;
    assert (u / n - v / n) * n == (u / n) * n - (v / n) * n;
  }

  lemma MultipleIsLarge(m: int, n: nat)
    ensures m >= 1 ==> m * n >= n
    ensures m <= -1 ==> m * n + n <= 0
  {
    if m >= 1 {
      assert m * n == (m - 1) * n + n;
    } else if m <= -1 {
      assert m * n + n == (m + 1) * n;
    }
  }

  lemma Difference(x: nat, y: nat, a: nat, b: nat)
    ensures (x * a + b) - (y * a + b) == a * (x - y)
  {
  }

  /** The word of key 0 is the offset, and the words of two keys differ by a times what the keys differ by. */
  lemma WordsAreLinear(h: Hash, x: int, y: int) returns (k: int)
    ensures Scrambled(h, 0) == h.b % WORD
    ensures Scrambled(h, x) - Scrambled(h, y) == h.a * (x - y) + k * WORD
  {
    var u, v := x % WORD, y % WORD;
    var p, q := u * h.a + h.b, v * h.a + h.b;
    Difference(u, v, h.a, h.b);
    assert u - v == (x - y) - (x / WORD - y / WORD) * WORD;
    var m := x / WORD - y / WORD;
    assert h.a * (u - v) == h.a * (x - y) - (h.a * m) * WORD;
    k := q / WORD - p / WORD - h.a * m;
    assert Scrambled(h, x) - Scrambled(h, y) == (p - q) + (q / WORD - p / WORD) * WORD;
  }

  /** The home of a key is its word, divided by 2^(32 - width). */
  lemma HomeIsHighBits(h: Hash, x: int)
    requires h.width <= 32
    ensures Home(h, x) * Pow2(32 - h.width) <= Scrambled(h, x) < (Home(h, x) + 1) * Pow2(32 - h.width)
  {
    Pow2Positive(32 - h.width);
    hide Scrambled, Pow2, Quotient;
    QuotientIs(Scrambled(h, x), Pow2(32 - h.width), Home(h, x));
  }

  /** Different words are scrambled to different words. */
  lemma Injective(h: Hash, x: nat, y: nat)
    requires h.a % 2 == 1 && x < WORD && y < WORD && Scrambled(h, x) == Scrambled(h, y)
    ensures x == y
  {
    Pow2Of32();
    hide Pow2;
    var k := Congruent(x * h.a + h.b, y * h.a + h.b, WORD);
    Difference(x, y, h.a, h.b);
    hide Scrambled;
    var m := OddCancels(h.a, x - y, 32, k);
    MultipleIsLarge(m, WORD);
  }

  // --- counting ---

  predicate NotBelow(lo: nat, x: nat) {
    lo <= x
  }

  ghost function Range(lo: nat, n: nat): set<nat> {
    set x: nat | x < lo + n && NotBelow(lo, x)
  }

  lemma {:induction false} RangeSize(lo: nat, n: nat)
    ensures |Range(lo, n)| == n
    decreases n
  {
    if n > 0 {
      RangeSize(lo, n - 1);
      assert Range(lo, n) == Range(lo, n - 1) + {lo + n - 1};
    } else {
      assert Range(lo, n) == {};
    }
  }

  ghost function Image(h: Hash, S: set<nat>): set<nat> {
    set x | x in S :: Scrambled(h, x)
  }

  lemma {:induction false} ImageSize(h: Hash, S: set<nat>)
    requires h.a % 2 == 1 && forall x :: x in S ==> x < WORD
    ensures |Image(h, S)| == |S|
    decreases S
  {
    hide Scrambled;
    if x :| x in S {
      var rest := S - {x};
      ImageSize(h, rest);
      assert Image(h, S) == Image(h, rest) + {Scrambled(h, x)};
      forall y | y in rest ensures Scrambled(h, y) != Scrambled(h, x) {
        if Scrambled(h, y) == Scrambled(h, x) {
          Injective(h, x, y);
        }
      }
    } else {
      assert Image(h, S) == {};
    }
  }

  /** Every word is the scrambled form of some word. */
  lemma Surjective(h: Hash)
    requires h.a % 2 == 1
    ensures Image(h, Range(0, WORD)) == Range(0, WORD)
  {
    hide Scrambled;
    RangeSize(0, WORD);
    ImageSize(h, Range(0, WORD));
    SubsetSize(Image(h, Range(0, WORD)), Range(0, WORD));
  }

  // --- homes ---

  /** The words whose home is slot p. */
  ghost function AtHome(h: Hash, p: nat): set<nat>
    requires h.width <= 32
  {
    set x: nat | x < WORD && Home(h, x) == p
  }

  lemma QuotientIs(x: nat, d: nat, p: nat)
    requires d >= 1
    ensures Quotient(x, d) == p <==> p * d <= x < p * d + d
  {
    var q := x / d;
    assert x == q * d + x % d;
    if p < q {
      assert (p + 1) * d <= q * d;
    } else if p > q {
      assert (q + 1) * d <= p * d;
    }
  }

  /** The block of words that a home stands for lies below 2^32. */
  lemma HomeRangeInWord(h: Hash, p: nat)
    requires ValidHash(h) && p < Pow2(h.width)
    ensures p * Pow2(32 - h.width) + Pow2(32 - h.width) <= WORD && Pow2(32 - h.width) >= 1
  {
    hide Pow2;
    Pow2Of32();
    Pow2Sum(h.width, 32 - h.width);
    Pow2Positive(32 - h.width);
    NextBlock(p, Pow2(h.width), Pow2(32 - h.width));
  }

  lemma NextBlock(p: nat, q: nat, d: nat)
    requires p < q
    ensures p * d + d <= q * d
  {
    assert q * d == p * d + d + (q - p - 1) * d;
  }

  lemma InHomeRange(h: Hash, p: nat, y: nat)
    requires ValidHash(h) && p < Pow2(h.width)
    ensures y in Range(p * Pow2(32 - h.width), Pow2(32 - h.width)) <==> y < WORD && HighBits(y, h.width) == p
  {
    HomeRangeInWord(h, p);
    hide Pow2, Quotient;
    QuotientIs(y, Pow2(32 - h.width), p);
  }

  lemma ScrambledIsHomeRange(h: Hash, p: nat)
    requires ValidHash(h) && p < Pow2(h.width)
    ensures Image(h, AtHome(h, p)) == Range(p * Pow2(32 - h.width), Pow2(32 - h.width))
  {
    hide Pow2, Scrambled, HighBits;
    var target := Range(p * Pow2(32 - h.width), Pow2(32 - h.width));
    Surjective(h);
    forall y: nat ensures y in Image(h, AtHome(h, p)) <==> y in target {
      InHomeRange(h, p, y);
      if y in target {
        assert y in Range(0, WORD);
        var x: nat :| x in Range(0, WORD) && y == Scrambled(h, x);
        assert x in AtHome(h, p);
      }
    }
  }

  /** Exactly 2^(32 - width) of the 2^32 words belong to each of the 2^width homes, whatever the offset. */
  lemma HomesAreUniform(h: Hash, p: nat)
    requires ValidHash(h) && p < Pow2(h.width)
    ensures |AtHome(h, p)| == Pow2(32 - h.width)
  {
    ScrambledIsHomeRange(h, p);
    hide Pow2, Home, Scrambled;
    RangeSize(p * Pow2(32 - h.width), Pow2(32 - h.width));
    ImageSize(h, AtHome(h, p));
  }
}
