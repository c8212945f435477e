/** A 512-bit vector as 16 lanes of integers, and a 16-bit mask as 16 booleans. */
module Vectors {

  type Mask = m: seq<bool> | |m| == 16 witness seq(16, _ => false)
  type Vector = v: seq<int> | |v| == 16 witness seq(16, _ => 0)

  function CmpEq(v: Vector, x: int): Mask {
    seq(16, i requires 0 <= i < 16 => v[i] == x)
  }

  predicate Any(m: Mask) {
    exists i :: 0 <= i < 16 && m[i]
  }

  /** The lowest set lane; 16 when there is none. */
  function Ctz(m: Mask, from: nat := 0): (i: nat)
    requires from <= 16 && forall j :: 0 <= j < from ==> !m[j]
    ensures i <= 16 && (i < 16 ==> m[i]) && forall j :: 0 <= j < i ==> !m[j]
    decreases 16 - from
  {
    if from == 16 || m[from] then from else Ctz(m, from + 1)
  }

  function PopCount(m: seq<bool>): nat {
    if m == [] then 0 else PopCount(m[..|m| - 1]) + if m[|m| - 1] then 1 else 0
  }
}
