/** `Expression.mask`: folds a list of proposition ids into a 32-bit int mask. */
module Masks {

  /** The shift distance Java uses for `1 << v` on an int: the low five bits of `v`,
      which is `v` modulo 32, never negative. */
  function Distance(v: int): (d: bv5)
    ensures (v - d as int) % 32 == 0
  {
    assert (v % 32) as bv5 as int == v % 32;
    (v % 32) as bv5
  }

  /** Java's `1 << v` on an int: exactly one bit is set, the one at `v`'s shift
      distance. */
  function Bit(v: int): (b: bv32)
    ensures forall k: bv5 :: IsSet(b, k) <==> k == Distance(v)
  {
    (1 as bv32) << Distance(v)
  }

  /** Whether bit `k` of a mask is set. */
  predicate IsSet(m: bv32, k: bv5) {
    m & ((1 as bv32) << k) != 0
  }

  /** The mask of a list, built from the front as the loop builds it. */
  function MaskOf(values: seq<int>): bv32 {
    if |values| == 0 then 0 else MaskOf(values[..|values| - 1]) | Bit(values[|values| - 1])
  }

  /** Whether some id of the list shifts a one into bit `k`. */
  predicate Selects(values: seq<int>, k: bv5) {
    exists x :: x in values && Distance(x) == k
  }

  /** The loop of `Expression.mask`: an empty list gives 0, and bit `k` of the result
      is set exactly when some id in the list has `k` as its shift distance. */
  method Mask(values: seq<int>) returns (caseMask: bv32)
    ensures caseMask == MaskOf(values)
    ensures |values| == 0 ==> caseMask == 0
    ensures forall k: bv5 :: IsSet(caseMask, k) <==> Selects(values, k)
  {
    caseMask := 0;
    for i := 0 to |values|
      invariant caseMask == MaskOf(values[..i])
    {
      assert values[..i + 1][..i] == values[..i];
      caseMask := caseMask | Bit(values[i]);
    }
    assert values[..|values|] == values;
    forall k: bv5
      ensures IsSet(caseMask, k) <==> Selects(values, k)
    {
      MaskBit(values, k);
    }
  }

  /** A bit of a union is set exactly when it is set in either part. */
  lemma UnionBit(m: bv32, n: bv32, k: bv5)
    ensures IsSet(m | n, k) <==> IsSet(m, k) || IsSet(n, k)
  {
    var t := (1 as bv32) << k;
    assert (m | n) & t == (m & t) | (n & t);
  }

  /** Bit `k` of the mask is set exactly when some id of the list selects it. */
  lemma {:induction false} MaskBit(values: seq<int>, k: bv5)
    ensures IsSet(MaskOf(values), k) <==> Selects(values, k)
  {
    if |values| > 0 {
      var init, last := values[..|values| - 1], values[|values| - 1];
      MaskBit(init, k);
      UnionBit(MaskOf(init), Bit(last), k);
      SelectsSnoc(values, k);
    }
  }

  /** The last id selects bit `k`, or an earlier one does. */
  lemma SelectsSnoc(values: seq<int>, k: bv5)
    requires |values| > 0
    ensures Selects(values, k)
            <==> Selects(values[..|values| - 1], k) || Distance(values[|values| - 1]) == k
  {
    var init, last := values[..|values| - 1], values[|values| - 1];
    assert values == init + [last];
    if Selects(values, k) {
      var x :| x in values && Distance(x) == k;
      assert x in init || x == last;
    }
  }

  /** Distinct ids below 32 have distinct shift distances. */
  lemma DistanceInjective(x: int, y: int)
    requires 0 <= x < 32 && 0 <= y < 32
    ensures Distance(x) == Distance(y) <==> x == y
  {
    assert x % 32 == x && y % 32 == y;
    assert Distance(x) as int == x;
    assert Distance(y) as int == y;
  }

  /** For ids below 32, bit `v` is set exactly when `v` occurs in the list. */
  lemma MaskMembership(values: seq<int>, v: int)
    requires 0 <= v < 32
    requires forall x :: x in values ==> 0 <= x < 32
    ensures IsSet(MaskOf(values), Distance(v)) <==> v in values
  {
    MaskBit(values, Distance(v));
    if Selects(values, Distance(v)) {
      var x :| x in values && Distance(x) == Distance(v);
      DistanceInjective(x, v);
    }
  }

  /** An id and the same id plus 32 set the same bit, as Java's shift masks its distance. */
  lemma ShiftDistanceWraps(values: seq<int>, v: int)
    ensures MaskOf(values + [v]) == MaskOf(values + [v + 32])
  {
    var d := v % 32;
    assert (v + 32) % 32 == d;
    assert Distance(v) == Distance(v + 32);
    assert (values + [v])[..|values|] == values;
    assert (values + [v + 32])[..|values|] == values;
  }

  /** Masking a concatenation is the bitwise OR of the two masks. */
  lemma {:induction false} MaskConcat(xs: seq<int>, ys: seq<int>)
    ensures MaskOf(xs + ys) == MaskOf(xs) | MaskOf(ys)
  {
    if |ys| == 0 {
      assert xs + ys == xs;
    } else {
      var init := ys[..|ys| - 1];
      MaskConcat(xs, init);
      assert (xs + ys)[..|xs + ys| - 1] == xs + init;
    }
  }

  /** The bit of an id already in the list is already in its mask. */
  lemma {:induction false} MaskAbsorbs(values: seq<int>, x: int)
    requires x in values
    ensures MaskOf(values) | Bit(x) == MaskOf(values)
  {
    var init, last := values[..|values| - 1], values[|values| - 1];
    assert values == init + [last];
    if x != last {
      MaskAbsorbs(init, x);
    }
  }

  /** The mask of a list whose ids all occur in another adds nothing to the other's. */
  lemma {:induction false} MaskCovered(xs: seq<int>, ys: seq<int>)
    requires forall x :: x in xs ==> x in ys
    ensures MaskOf(xs) | MaskOf(ys) == MaskOf(ys)
  {
    if |xs| > 0 {
      var init, last := xs[..|xs| - 1], xs[|xs| - 1];
      assert xs == init + [last];
      MaskCovered(init, ys);
      MaskAbsorbs(ys, last);
    }
  }

  /** The mask depends only on which ids the list holds, not on their order or on
      repeated ids. */
  lemma MaskIgnoresOrderAndDuplicates(xs: seq<int>, ys: seq<int>)
    requires forall x :: x in xs <==> x in ys
    ensures MaskOf(xs) == MaskOf(ys)
  {
    MaskCovered(xs, ys);
    MaskCovered(ys, xs);
  }

  /** The ids below 32 that a mask holds, as the set that evaluation consults. */
  function BitsOf(m: bv32): set<nat> {
    set b: nat | b < 32 && IsSet(m, Distance(b))
  }

  /** For ids below 32, the mask of a list holds exactly the list's ids. */
  lemma MaskHoldsListIds(values: seq<int>)
    requires forall x :: x in values ==> 0 <= x < 32
    ensures BitsOf(MaskOf(values)) == set x: nat | x in values
  {
    forall b: nat | b < 32
      ensures IsSet(MaskOf(values), Distance(b)) <==> b in values
    {
      MaskMembership(values, b);
    }
  }
}
