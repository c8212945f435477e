/**
 Hopscotch hashing on values: the slots of the table as a sequence, the multiplicative hash, and
 what displacing a key does to the reachability of every other key.
 */
module Hopscotch {
  import opened Keys
  import opened Powers
  import opened FiniteSets

  const WORD: nat := 0x1_0000_0000

  /** Width 31 would make the signed shift in `reserve` negative: the widest table has 2^30 slots. */
  const MAX_WIDTH: nat := 30

  predicate IsKey(x: int) {
    -0x8000_0000 <= x < 0x8000_0000 && x != EMPTY_KEY && x != INVAL_KEY
  }

  // --- the hash function ---

  /** The multiplier, the offset, and the number of home bits. */
  datatype Hash = Hash(a: nat, b: nat, width: nat)

  ghost predicate ValidHash(h: Hash) {
    h.a % 2 == 1 && 1 <= h.width <= MAX_WIDTH
  }

  /** The 32-bit word el * a + b. */
  function Scrambled(h: Hash, el: int): (x: nat)
    ensures x < WORD
  {
    ((el % WORD) * h.a + h.b) % WORD
  }

  function Quotient(x: nat, d: nat): nat
    requires d >= 1
  {
    x / d
  }

  function HighBits(x: nat, width: nat): nat
    requires width <= 32
  {
    Pow2Positive(32 - width);
    Quotient(x, Pow2(32 - width))
  }

  /** The home slot: the high `width` bits of the scrambled key. */
  function Home(h: Hash, el: int): nat
    requires h.width <= 32
  {
    HighBits(Scrambled(h, el), h.width)
  }

  lemma HomeInRange(h: Hash, el: int)
    requires h.width <= 32
    ensures Home(h, el) < Pow2(h.width)
  {
    hide Scrambled;
    Pow2Of32();
    Pow2Sum(h.width, 32 - h.width);
    Pow2Positive(32 - h.width);
    QuotientInRange(Scrambled(h, el), Pow2(32 - h.width), Pow2(h.width));
  }

  lemma QuotientInRange(x: nat, d: nat, q: nat)
    requires d >= 1 && x < q * d
    ensures Quotient(x, d) < q
  {
    var r := x / d;
    assert x == r * d + x % d;
    assert (q - r) * d > 0;
  }

  // --- the size of the table ---

  /** `reserve`: the width for cap elements; 32 minus the leading zeros of 2 * cap - 1. */
  function WidthFor(cap: nat): nat
    requires cap >= 1
  {
    BitLength(2 * cap - 1)
  }

  /** At most half full, and never more than four times too large. */
  lemma ReservedCapacity(cap: nat)
    requires cap >= 1
    ensures 1 <= WidthFor(cap) && 2 * cap <= Pow2(WidthFor(cap)) <= 4 * cap - 2
    ensures WidthFor(cap) <= MAX_WIDTH <==> cap <= Pow2(MAX_WIDTH - 1)
  {
    hide Pow2;
    var w := WidthFor(cap);
    BitLengthBounds(2 * cap - 1);
    Pow2Step(w - 1);
    Pow2Step(MAX_WIDTH - 1);
    if w <= MAX_WIDTH {
      Pow2Monotone(w, MAX_WIDTH);
    } else {
      Pow2Monotone(MAX_WIDTH, w - 1);
    }
  }

  lemma FifteenFit()
    ensures 15 <= Pow2(MAX_WIDTH - 1)
  {
    assert Pow2(4) == 16;
    Pow2Monotone(4, MAX_WIDTH - 1);
  }

  /** Reserving a table's own capacity doubles it. */
  lemma ReserveDoubles(width: nat)
    ensures Pow2(width) >= 1 && WidthFor(Pow2(width)) == width + 1
  {
    Pow2Positive(width);
    assert Pow2(width + 1) == 2 * Pow2(width);
    BitLengthUnique(2 * Pow2(width) - 1, width + 1);
  }

  // --- slots ---

  /** The circular distance from `second` forward to `first`. */
  function Dist(first: int, second: int, cap: int): int {
    if first >= second then first - second else first - second + cap
  }

  ghost predicate Shape(s: seq<int>, h: Hash) {
    && ValidHash(h) && |s| == Pow2(h.width)
    && forall i :: 0 <= i < |s| ==> s[i] == EMPTY_KEY || IsKey(s[i])
  }

  ghost function KeysOf(s: seq<int>): set<Key> {
    set k: Key | k in s
  }

  /** No empty slot from position `home` up to, but excluding, position i. */
  ghost predicate NoGap(s: seq<int>, home: int, i: int) {
    forall q :: 0 <= q < |s| && Dist(q, home, |s|) < Dist(i, home, |s|) ==> s[q] != EMPTY_KEY
  }

  /** The key in slot i lies within 15 circular slots of its home, with no empty slot in between. */
  ghost predicate Reachable(s: seq<int>, h: Hash, i: int)
    requires h.width <= 32 && 0 <= i < |s|
  {
    Dist(i, Home(h, s[i]), |s|) < 16 && NoGap(s, Home(h, s[i]), i)
  }

  ghost predicate Placed(s: seq<int>, h: Hash)
    requires h.width <= 32
  {
    forall i :: 0 <= i < |s| && s[i] != EMPTY_KEY ==> Reachable(s, h, i)
  }

  ghost predicate Distinct(s: seq<int>) {
    forall i, j :: 0 <= i < j < |s| && s[i] != EMPTY_KEY ==> s[i] != s[j]
  }

  ghost predicate TableOk(s: seq<int>, h: Hash) {
    Shape(s, h) && Placed(s, h) && Distinct(s)
  }

  // --- displacement ---

  /**
   The table while the insertion of a key with home `init` moves its free slot `pos` closer: every
   slot but `pos` is in order, and `pos` is still empty or holds a second copy of a key.
   */
  ghost predicate Displaced(s: seq<int>, h: Hash, init: int, pos: int, keys: set<Key>) {
    && Shape(s, h) && 0 <= init < |s| && 0 <= pos < |s|
    && (forall i :: 0 <= i < |s| && i != pos && s[i] != EMPTY_KEY ==> Reachable(s, h, i))
    && (forall i, j :: 0 <= i < j < |s| && i != pos && j != pos && s[i] != EMPTY_KEY ==> s[i] != s[j])
    && (forall k: Key :: k in keys <==> exists i :: 0 <= i < |s| && i != pos && s[i] == k)
    && (s[pos] == EMPTY_KEY || s[pos] in keys)
    && NoGap(s, init, pos)
  }

  lemma StartDisplacement(s: seq<int>, h: Hash, init: int, pos: int)
    requires TableOk(s, h) && 0 <= init < |s| && 0 <= pos < |s| && s[pos] == EMPTY_KEY && NoGap(s, init, pos)
    ensures Displaced(s, h, init, pos, KeysOf(s))
  {
    hide Reachable, NoGap;
    forall k: Key ensures k in KeysOf(s) <==> exists i :: 0 <= i < |s| && i != pos && s[i] == k {
    }
  }

  /** Filling a slot opens no gap. */
  lemma FillKeepsNoGap(s: seq<int>, pos: int, x: int, home: int, i: int)
    requires 0 <= pos < |s| && x != EMPTY_KEY && NoGap(s, home, i)
    ensures NoGap(s[pos := x], home, i)
  {
  }

  lemma FillKeepsReachable(s: seq<int>, h: Hash, pos: int, x: int, i: int)
    requires h.width <= 32 && 0 <= pos < |s| && x != EMPTY_KEY && 0 <= i < |s| && i != pos && Reachable(s, h, i)
    ensures Reachable(s[pos := x], h, i)
  {
    FillKeepsNoGap(s, pos, x, Home(h, s[i]), i);
  }

  /** The window of 15 slots before `pos` lies strictly after `init`, so a key homed there is reachable at `pos`. */
  lemma WindowHasNoGap(s: seq<int>, init: int, pos: int, home: int)
    requires 0 <= init < |s| && 0 <= pos < |s| && 0 <= home < |s|
    requires NoGap(s, init, pos) && Dist(pos, init, |s|) >= 16 && Dist(pos, home, |s|) <= 15
    ensures NoGap(s, home, pos)
  {
  }

  /** One hop: the key in slot j moves to `pos`, and j becomes the slot to fill. */
  lemma Hop(s: seq<int>, h: Hash, init: int, pos: int, keys: set<Key>, j: int)
    requires Displaced(s, h, init, pos, keys) && Dist(pos, init, |s|) >= 16
    requires 0 <= j < |s| && 1 <= Dist(pos, j, |s|) <= 15 && Dist(pos, Home(h, s[j]), |s|) <= 15
    ensures s[j] != EMPTY_KEY
    ensures Displaced(s[pos := s[j]], h, init, j, keys)
    ensures Dist(j, init, |s|) < Dist(pos, init, |s|)
  {
    var x := s[j];
    assert s[j] != EMPTY_KEY;
    var s' := s[pos := x];
    HomeInRange(h, x);
    assert Reachable(s', h, pos) by {
      WindowHasNoGap(s, init, pos, Home(h, x));
      FillKeepsNoGap(s, pos, x, Home(h, x), pos);
    }
    assert NoGap(s', init, j);
    forall i | 0 <= i < |s| && i != j && s'[i] != EMPTY_KEY ensures Reachable(s', h, i) {
      if i != pos {
        FillKeepsReachable(s, h, pos, x, i);
      }
    }
    hide Reachable, NoGap, Home;
    forall k: Key ensures k in keys <==> exists i :: 0 <= i < |s'| && i != j && s'[i] == k {
      if k in keys {
        var i :| 0 <= i < |s| && i != pos && s[i] == k;
        assert s'[if i == j then pos else i] == k;
      }
    }
  }

  /** The last step: the free slot is close enough to the new key's home. */
  lemma Land(s: seq<int>, h: Hash, init: int, pos: int, keys: set<Key>, el: Key)
    requires Displaced(s, h, init, pos, keys) && Dist(pos, init, |s|) < 16
    requires init == Home(h, el) && el !in keys
    ensures TableOk(s[pos := el], h) && KeysOf(s[pos := el]) == keys + {el}
  {
    var s' := s[pos := el];
    FillKeepsNoGap(s, pos, el, init, pos);
    forall i | 0 <= i < |s| && s'[i] != EMPTY_KEY ensures Reachable(s', h, i) {
      if i != pos {
        FillKeepsReachable(s, h, pos, el, i);
      }
    }
    hide Reachable, NoGap, Home;
    assert s'[pos] == el;
    forall k: Key ensures k in KeysOf(s') <==> k in keys + {el} {
      if k in keys {
        var i :| 0 <= i < |s| && i != pos && s[i] == k;
        assert s'[i] == k;
      }
    }
  }

  /** Giving up half way loses nothing: the slots still hold exactly the old keys, one perhaps twice. */
  lemma AbandonedKeys(s: seq<int>, h: Hash, init: int, pos: int, keys: set<Key>)
    requires Displaced(s, h, init, pos, keys)
    ensures KeysOf(s) == keys
  {
    hide Reachable, NoGap;
  }

  // --- the whole chain of displacements ---

  /** The table in the middle of an attempt, and its free slot, which may hold a second copy of a key. */
  datatype Hole = Hole(cells: seq<int>, free: int)

  /** The key in slot i may move into the free slot: it is near, and so is its home. */
  ghost predicate Movable(s: seq<int>, h: Hash, free: int, i: int)
    requires h.width <= 32
  {
    && 0 <= free < |s| && 0 <= i < |s| && 1 <= Dist(free, i, |s|) <= 15
    && Dist(free, Home(h, s[i]), |s|) <= 15
  }

  /** A key of the window may move exactly if lookups will find it in the free slot. */
  lemma MovableIsReachable(s: seq<int>, h: Hash, init: int, free: int, keys: set<Key>, i: int)
    requires Displaced(s, h, init, free, keys) && Dist(free, init, |s|) >= 16
    requires 0 <= i < |s| && 1 <= Dist(free, i, |s|) <= 15
    ensures Movable(s, h, free, i) <==> Reachable(s[free := s[i]], h, free)
  {
    HomeInRange(h, s[i]);
    hide Home;
    assert s[i] != EMPTY_KEY;
    if Movable(s, h, free, i) {
      WindowHasNoGap(s, init, free, Home(h, s[i]));
      FillKeepsNoGap(s, free, s[i], Home(h, s[i]), free);
    }
  }

  /** The farthest key that may move does so, and leaves its slot as the free one. */
  ghost predicate Displaces(h: Hash, a: Hole, b: Hole)
    requires h.width <= 32
  {
    && Movable(a.cells, h, a.free, b.free)
    && (forall i :: Movable(a.cells, h, a.free, i) ==>
        Dist(a.free, i, |a.cells|) <= Dist(a.free, b.free, |a.cells|))
    && b.cells == a.cells[a.free := a.cells[b.free]]
  }

  ghost predicate FirstEmpty(s: seq<int>, home: int, free: int) {
    0 <= free < |s| && s[free] == EMPTY_KEY && NoGap(s, home, free)
  }

  /** The free slot is out of reach of the home of el. */
  ghost predicate TooFar(a: Hole, h: Hash, el: Key)
    requires h.width <= 32
  {
    Dist(a.free, Home(h, el), |a.cells|) >= 16
  }

  /** The free slot is too far exactly if lookups would not find el in it. */
  lemma TooFarIsUnreachable(s: seq<int>, h: Hash, free: int, keys: set<Key>, el: Key)
    requires h.width <= 32 && Displaced(s, h, Home(h, el), free, keys)
    ensures TooFar(Hole(s, free), h, el) <==> !Reachable(s[free := el], h, free)
  {
    FillKeepsNoGap(s, free, el, Home(h, el), free);
    assert s[free := el][free] == el;
    hide Home, NoGap;
  }

  /** From the first empty slot, one displacement after the other as long as the free slot is too far. */
  ghost predicate Chain(s: seq<int>, h: Hash, el: Key, path: seq<Hole>)
    requires h.width <= 32
  {
    && path != [] && path[0].cells == s && FirstEmpty(s, Home(h, el), path[0].free)
    && forall i :: 0 <= i < |path| - 1 ==> TooFar(path[i], h, el) && Displaces(h, path[i], path[i + 1])
  }

  ghost function End(path: seq<Hole>): Hole
    requires path != []
  {
    path[|path| - 1]
  }

  ghost predicate NothingMoves(a: Hole, h: Hash)
    requires h.width <= 32
  {
    forall i :: !Movable(a.cells, h, a.free, i)
  }

  /** The chain ends too far from the home of el, where no key may move. */
  ghost predicate StuckAfter(s: seq<int>, h: Hash, el: Key, path: seq<Hole>)
    requires h.width <= 32
  {
    Chain(s, h, el, path) && TooFar(End(path), h, el) && NothingMoves(End(path), h)
  }

  ghost predicate Stuck(s: seq<int>, h: Hash, el: Key)
    requires h.width <= 32
  {
    exists path :: StuckAfter(s, h, el, path)
  }

  /** The chain ends close enough to the home of el, which goes into the free slot. */
  ghost predicate LandsAfter(s: seq<int>, h: Hash, el: Key, s': seq<int>, path: seq<Hole>)
    requires h.width <= 32
  {
    && Chain(s, h, el, path) && !TooFar(End(path), h, el)
    && 0 <= End(path).free < |End(path).cells| && s' == End(path).cells[End(path).free := el]
  }

  ghost predicate Lands(s: seq<int>, h: Hash, el: Key, s': seq<int>)
    requires h.width <= 32
  {
    exists path :: LandsAfter(s, h, el, s', path)
  }

  lemma StartChain(s: seq<int>, h: Hash, el: Key, free: int)
    requires h.width <= 32 && FirstEmpty(s, Home(h, el), free)
    ensures Chain(s, h, el, [Hole(s, free)]) && End([Hole(s, free)]) == Hole(s, free)
  {
    hide Home, FirstEmpty;
  }

  lemma ExtendChain(s: seq<int>, h: Hash, el: Key, path: seq<Hole>, a: Hole)
    requires h.width <= 32 && Chain(s, h, el, path) && TooFar(End(path), h, el) && Displaces(h, End(path), a)
    ensures Chain(s, h, el, path + [a]) && End(path + [a]) == a
  {
    hide Home, FirstEmpty, TooFar, Displaces;
    var longer := path + [a];
    forall i | 0 <= i < |longer| - 1 ensures TooFar(longer[i], h, el) && Displaces(h, longer[i], longer[i + 1]) {
      assert longer[i] == path[i];
      if i < |path| - 1 {
        assert longer[i + 1] == path[i + 1];
      }
    }
  }

  lemma NoneMovable(s: seq<int>, h: Hash, pos: int)
    requires h.width <= 32
    requires forall i :: 0 <= i < |s| && 1 <= Dist(pos, i, |s|) <= 15 ==> Dist(pos, Home(h, s[i]), |s|) > 15
    ensures NothingMoves(Hole(s, pos), h)
  {
    hide Home;
  }

  lemma FarthestMoves(s: seq<int>, h: Hash, pos: int, j: int)
    requires h.width <= 32 && 0 <= pos < |s| && 0 <= j < |s| && Movable(s, h, pos, j)
    requires forall i :: 0 <= i < |s| && Dist(pos, j, |s|) < Dist(pos, i, |s|) <= 15 ==>
        Dist(pos, Home(h, s[i]), |s|) > 15
    ensures Displaces(h, Hole(s, pos), Hole(s[pos := s[j]], j))
  {
    hide Home;
  }

  lemma StuckHere(s: seq<int>, h: Hash, el: Key, path: seq<Hole>)
    requires h.width <= 32 && Chain(s, h, el, path) && TooFar(End(path), h, el) && NothingMoves(End(path), h)
    ensures Stuck(s, h, el)
  {
    assert StuckAfter(s, h, el, path);
  }

  lemma LandsHere(s: seq<int>, h: Hash, el: Key, path: seq<Hole>)
    requires Shape(s, h) && Chain(s, h, el, path) && !TooFar(End(path), h, el)
    requires 0 <= End(path).free < |End(path).cells|
    ensures Lands(s, h, el, End(path).cells[End(path).free := el]) && !Stuck(s, h, el)
  {
    var s' := End(path).cells[End(path).free := el];
    assert LandsAfter(s, h, el, s', path);
    OneOutcome(s, h, el, s', s');
  }

  lemma PrefixKeys(s: seq<int>, n: nat)
    requires n <= |s|
    ensures KeysOf(s[..n]) <= KeysOf(s) && |KeysOf(s[..n])| <= |KeysOf(s)|
  {
    SubsetSize(KeysOf(s[..n]), KeysOf(s));
  }

  lemma OneFirstEmpty(s: seq<int>, home: int, p: int, q: int)
    requires 0 <= home < |s| && FirstEmpty(s, home, p) && FirstEmpty(s, home, q)
    ensures p == q
  {
  }

  lemma OneDisplacement(h: Hash, a: Hole, b: Hole, c: Hole)
    requires h.width <= 32 && Displaces(h, a, b) && Displaces(h, a, c)
    ensures b == c && !NothingMoves(a, h)
  {
    hide Home;
    assert Dist(a.free, b.free, |a.cells|) == Dist(a.free, c.free, |a.cells|);
  }

  /** Two chains agree as long as both last. */
  lemma {:induction false} ChainsAgree(s: seq<int>, h: Hash, el: Key, path: seq<Hole>, path': seq<Hole>, i: nat)
    requires Shape(s, h) && Chain(s, h, el, path) && Chain(s, h, el, path') && i < |path| && i < |path'|
    ensures path[i] == path'[i]
  {
    HomeInRange(h, el);
    hide Home, FirstEmpty, TooFar, Displaces;
    if i == 0 {
      OneFirstEmpty(s, Home(h, el), path[0].free, path'[0].free);
    } else {
      ChainsAgree(s, h, el, path, path', i - 1);
      assert Displaces(h, path[i - 1], path[i - 1 + 1]) && Displaces(h, path'[i - 1], path'[i - 1 + 1]);
      OneDisplacement(h, path[i - 1], path[i], path'[i]);
    }
  }

  /** A chain ends where it can go no further. */
  ghost predicate Complete(h: Hash, el: Key, path: seq<Hole>)
    requires h.width <= 32 && path != []
  {
    !TooFar(End(path), h, el) || NothingMoves(End(path), h)
  }

  /** There is one complete chain. */
  lemma OneChain(s: seq<int>, h: Hash, el: Key, path: seq<Hole>, path': seq<Hole>)
    requires Shape(s, h) && Chain(s, h, el, path) && Complete(h, el, path)
    requires Chain(s, h, el, path') && Complete(h, el, path')
    ensures path == path'
  {
    hide Home, FirstEmpty, TooFar, NothingMoves, Movable;
    var n := if |path| < |path'| then |path| else |path'|;
    forall i | 0 <= i < n ensures path[i] == path'[i] {
      ChainsAgree(s, h, el, path, path', i);
    }
    if n < |path| {
      assert Displaces(h, path[n - 1], path[n - 1 + 1]);
      OneDisplacement(h, path[n - 1], path[n], path[n]);
    } else if n < |path'| {
      assert Displaces(h, path'[n - 1], path'[n - 1 + 1]);
      OneDisplacement(h, path'[n - 1], path'[n], path'[n]);
    }
  }

  /** An attempt has one outcome: it is stuck, or it lands, in one way. */
  lemma OneOutcome(s: seq<int>, h: Hash, el: Key, s': seq<int>, s'': seq<int>)
    requires Shape(s, h) && Lands(s, h, el, s')
    ensures !Stuck(s, h, el)
    ensures Lands(s, h, el, s'') ==> s'' == s'
  {
    hide Home, TooFar, NothingMoves, Displaces, FirstEmpty;
    var path :| LandsAfter(s, h, el, s', path);
    if path' :| StuckAfter(s, h, el, path') {
      OneChain(s, h, el, path, path');
    }
    if Lands(s, h, el, s'') {
      var path' :| LandsAfter(s, h, el, s'', path');
      OneChain(s, h, el, path, path');
    }
  }

  // --- lookup ---

  /** A present key is met within 16 slots of its home, before any empty slot. */
  lemma PresentIsNear(s: seq<int>, h: Hash, el: Key) returns (i: int)
    requires TableOk(s, h) && el in KeysOf(s)
    ensures 0 <= i < |s| && s[i] == el && Dist(i, Home(h, el), |s|) < 16 && NoGap(s, Home(h, el), i)
  {
    hide NoGap;
    i :| 0 <= i < |s| && s[i] == el;
    assert Reachable(s, h, i);
  }

  /** The first i slots from `init` are neither empty nor el. */
  ghost predicate Passed(s: seq<int>, init: int, i: int, el: int) {
    forall q :: 0 <= q < |s| && Dist(q, init, |s|) < i ==> s[q] != EMPTY_KEY && s[q] != el
  }

  lemma NothingPassed(s: seq<int>, init: int, el: int)
    requires 0 <= init < |s|
    ensures Passed(s, init, 0, el)
  {
  }

  lemma PassOne(s: seq<int>, init: int, i: nat, el: int, pos: int) returns (next: int)
    requires 0 <= init < |s| && 0 <= pos < |s| && Dist(pos, init, |s|) == i
    requires Passed(s, init, i, el) && s[pos] != EMPTY_KEY && s[pos] != el
    ensures Passed(s, init, i + 1, el)
    ensures next == (if pos + 1 == |s| then 0 else pos + 1) && (i + 1 < |s| ==> Dist(next, init, |s|) == i + 1)
  {
    next := if pos + 1 == |s| then 0 else pos + 1;
  }

  /** Meeting an empty slot first means that the key is absent. */
  lemma EmptyMeansAbsent(s: seq<int>, h: Hash, el: Key, pos: int)
    requires TableOk(s, h) && 0 <= pos < |s| && s[pos] == EMPTY_KEY
    requires Passed(s, Home(h, el), Dist(pos, Home(h, el), |s|), el)
    ensures el !in KeysOf(s) && NoGap(s, Home(h, el), pos)
  {
    HomeInRange(h, el);
    if el in KeysOf(s) {
      var i := PresentIsNear(s, h, el);
    }
  }

  /** The lookup's attempts may run around a small table more than once. */
  lemma PassAnother(s: seq<int>, init: int, i: nat, el: int, pos: int)
    requires 0 <= init < |s| && 0 <= pos < |s| && (i < |s| ==> Dist(pos, init, |s|) == i)
    requires Passed(s, init, i, el) && s[pos] != EMPTY_KEY && s[pos] != el
    ensures Passed(s, init, i + 1, el)
    ensures i + 1 < |s| ==> Dist(if pos + 1 == |s| then 0 else pos + 1, init, |s|) == i + 1
  {
  }

  lemma PassedEmpty(s: seq<int>, h: Hash, el: Key, pos: int, i: nat)
    requires TableOk(s, h) && 0 <= pos < |s| && s[pos] == EMPTY_KEY
    requires Passed(s, Home(h, el), i, el) && (i < |s| ==> Dist(pos, Home(h, el), |s|) == i)
    ensures el !in KeysOf(s)
  {
    HomeInRange(h, el);
    EmptyMeansAbsent(s, h, el, pos);
  }

  lemma PassedAll(s: seq<int>, h: Hash, el: Key)
    requires TableOk(s, h) && Passed(s, Home(h, el), 16, el)
    ensures el !in KeysOf(s)
  {
    if el in KeysOf(s) {
      var i := PresentIsNear(s, h, el);
    }
  }

  lemma NotAllPassed(s: seq<int>, h: Hash, init: int, el: int)
    requires TableOk(s, h) && |KeysOf(s)| < |s| && 0 <= init < |s|
    ensures !Passed(s, init, |s|, el)
  {
    HasEmptySlot(s, h);
  }

  /** The 16 slots from `pos`: 15 padding lanes follow the table, and `stray` is whatever lies behind those. */
  function Load(s: seq<int>, pos: nat, stray: int): (v: seq<int>)
    requires pos <= |s|
    ensures |v| == 16
  {
    seq(16, i requires 0 <= i < 16 =>
      if pos + i < |s| then s[pos + i] else if pos + i < |s| + 15 then INVAL_KEY else stray)
  }

  /** The one way in which the vector lookup can be wrong: it reads the lane behind the padding. */
  ghost predicate StrayHit(s: seq<int>, h: Hash, el: int, stray: int) {
    && h.width <= 32 && Home(h, el) + 16 == |s| && stray == el
    && forall q :: Home(h, el) <= q < |s| ==> s[q] != EMPTY_KEY
  }

  ghost predicate Loaded(s: seq<int>, pos: nat, stray: int, x: int)
    requires pos <= |s|
  {
    exists l :: 0 <= l < 16 && Load(s, pos, stray)[l] == x
  }

  lemma LoadedMeans(s: seq<int>, pos: nat, stray: int, x: int)
    requires pos <= |s| && x != INVAL_KEY
    ensures Loaded(s, pos, stray, x) <==>
        (exists q :: pos <= q < pos + 16 && q < |s| && s[q] == x) || (pos == |s| && stray == x)
  {
    var v := Load(s, pos, stray);
    if q :| pos <= q < pos + 16 && q < |s| && s[q] == x {
      assert v[q - pos] == x;
    } else if pos == |s| && stray == x {
      assert v[15] == x;
    }
  }

  /** Where the second load starts: back at slot 0 only if `pos + 16` is beyond the table. */
  function SecondLoad(pos: nat, cap: nat): nat {
    if pos + 16 > cap then 0 else pos + 16
  }

  /** What the first load from the home decides, and what is left to the second. */
  lemma TwoLoads(s: seq<int>, h: Hash, el: Key, stray: int)
    requires TableOk(s, h)
    ensures Home(h, el) < |s|
    ensures Loaded(s, Home(h, el), stray, el) ==> el in KeysOf(s)
    ensures !Loaded(s, Home(h, el), stray, el) && Loaded(s, Home(h, el), stray, EMPTY_KEY)
            ==> el !in KeysOf(s) && !StrayHit(s, h, el, stray)
    ensures !Loaded(s, Home(h, el), stray, el) && !Loaded(s, Home(h, el), stray, EMPTY_KEY)
            ==> (Loaded(s, SecondLoad(Home(h, el), |s|), stray, el) <==> el in KeysOf(s) || StrayHit(s, h, el, stray))
  {
    hide Scrambled, HighBits;
    HomeInRange(h, el);
    var pos := Home(h, el);
    LoadedMeans(s, pos, stray, el);
    LoadedMeans(s, pos, stray, EMPTY_KEY);
    LoadedMeans(s, SecondLoad(pos, |s|), stray, el);
    hide Loaded, Load;
    if el in KeysOf(s) {
      var i := PresentIsNear(s, h, el);
    }
  }

  /** What the home slot alone tells. */
  lemma HomeSlot(s: seq<int>, h: Hash, el: Key, stray: int)
    requires TableOk(s, h) && Home(h, el) < |s|
    ensures s[Home(h, el)] == el ==> el in KeysOf(s)
    ensures s[Home(h, el)] == EMPTY_KEY ==> el !in KeysOf(s) && !StrayHit(s, h, el, stray)
  {
    if el in KeysOf(s) {
      var i := PresentIsNear(s, h, el);
    }
  }

  lemma NoKeysNoStray(s: seq<int>, h: Hash, el: Key, stray: int)
    requires TableOk(s, h) && |KeysOf(s)| == 0
    ensures el !in KeysOf(s) && !StrayHit(s, h, el, stray)
  {
    HomeInRange(h, el);
    assert KeysOf(s) == {};
    assert forall k: Key :: k in s <==> k in KeysOf(s);
    var home := Home(h, el);
    assert s[home] in s;
    assert s[home] == EMPTY_KEY;
  }

  /** 32 slots whose upper half is full. */
  function HalfFull(): (s: seq<int>)
    ensures |s| == 32
  {
    seq(32, i requires 0 <= i < 32 => if i < 16 then EMPTY_KEY else i - 16 - 0x8000_0000)
  }

  lemma HalfFullHome(k: nat)
    requires k <= 16
    ensures Home(Hash(1, 0, 5), k - 0x8000_0000) == 16
  {
    assert Pow2(27) == 0x800_0000 by {
      assert Pow2(9) == 512;
      hide Pow2;
      Pow2Sum(9, 9);
      Pow2Sum(18, 9);
    }
    hide Pow2;
    assert (k - 0x8000_0000) % WORD == 0x8000_0000 + k;
    assert (0x8000_0000 + k) / 0x800_0000 == 16;
  }

  /** The stray lane does mislead: a sound table, and an absent key that lies behind its padding. */
  lemma StrayHitHappens() returns (s: seq<int>, h: Hash, el: Key)
    ensures TableOk(s, h) && el !in KeysOf(s) && StrayHit(s, h, el, el)
  {
    s, h, el := HalfFull(), Hash(1, 0, 5), 16 - 0x8000_0000;
    assert Pow2(5) == 32;
    forall i | 0 <= i < 32 && s[i] != EMPTY_KEY ensures i >= 16 && Home(h, s[i]) == 16 {
      HalfFullHome(i - 16);
    }
    HalfFullHome(16);
    hide Home, Pow2;
    assert forall i :: 0 <= i < 32 && s[i] != EMPTY_KEY ==> Reachable(s, h, i);
  }

  // --- collecting the keys slot by slot ---

  lemma NoKeys(s: seq<int>)
    ensures KeysOf(s[..0]) == {}
  {
  }

  lemma MoreKeys(s: seq<int>, i: nat)
    requires i < |s| && IsKey(s[i])
    ensures KeysOf(s[..i + 1]) == KeysOf(s[..i]) + {s[i]}
    ensures |KeysOf(s[..i])| <= |KeysOf(s)|
  {
    SubsetSize(KeysOf(s[..i]), KeysOf(s));
  }

  lemma SameKeys(s: seq<int>, i: nat)
    requires i < |s| && s[i] == EMPTY_KEY
    ensures KeysOf(s[..i + 1]) == KeysOf(s[..i])
  {
  }

  /** A table that is not full has an empty slot. */
  lemma {:induction false} DistinctCount(s: seq<int>, n: nat)
    requires n <= |s| && Distinct(s) && forall i :: 0 <= i < |s| ==> IsKey(s[i])
    ensures |KeysOf(s[..n])| == n
  {
    if n > 0 {
      DistinctCount(s, n - 1);
      MoreKeys(s, n - 1);
      var k: Key := s[n - 1];
      assert k !in s[..n - 1];
    } else {
      NoKeys(s);
    }
  }

  /** A stray hit needs 16 full slots in a row, hence 16 keys. */
  lemma StrayNeedsSixteen(s: seq<int>, h: Hash, el: int, stray: int)
    requires TableOk(s, h) && StrayHit(s, h, el, stray)
    ensures |KeysOf(s)| >= 16
  {
    var top := s[Home(h, el)..];
    hide Home, Placed;
    assert forall i :: 0 <= i < |top| ==> IsKey(top[i]);
    DistinctCount(top, 16);
    assert top[..16] == top;
    SubsetSize(KeysOf(top), KeysOf(s));
  }

  /** Every slot that a probe passes holds another key, so a probe is no longer than the table has keys. */
  lemma ProbeLength(s: seq<int>, h: Hash, init: int, pos: int)
    requires TableOk(s, h) && 0 <= init < |s| && 0 <= pos < |s| && NoGap(s, init, pos)
    ensures Dist(pos, init, |s|) <= |KeysOf(s)|
  {
    hide Placed, Home;
    var d := Dist(pos, init, |s|);
    var passed := (s[init..] + s[..init])[..d];
    forall i | 0 <= i < d ensures IsKey(passed[i]) && passed[i] in s {
      var q := if init + i < |s| then init + i else init + i - |s|;
      assert passed[i] == s[q] && Dist(q, init, |s|) == i;
    }
    DistinctCount(passed, d);
    assert passed[..d] == passed;
    SubsetSize(KeysOf(passed), KeysOf(s));
  }

  lemma FullCount(s: seq<int>, h: Hash)
    requires TableOk(s, h) && forall i :: 0 <= i < |s| ==> s[i] != EMPTY_KEY
    ensures |KeysOf(s)| == |s|
  {
    DistinctCount(s, |s|);
    assert s[..|s|] == s;
  }

  lemma HasEmptySlot(s: seq<int>, h: Hash)
    requires TableOk(s, h) && |KeysOf(s)| < |s|
    ensures exists i :: 0 <= i < |s| && s[i] == EMPTY_KEY
  {
    if forall i :: 0 <= i < |s| ==> s[i] != EMPTY_KEY {
      FullCount(s, h);
    }
  }
}
