/** Exact proportional shares: the arithmetic of every split in the audit code. */
module Proportion {

  /** The share of an amount that belongs to `weight` out of `total`. */
  function Portion(amount: real, weight: real, total: real): real
    requires total > 0.0
  {
    amount * (weight / total)
  }

  /** What is left of an amount when holders of weight `before` have had their shares. */
  ghost function Rest(amount: real, before: real, total: real): real
    requires total > 0.0
  {
    amount * (1.0 - before / total)
  }

  lemma RestShrinks(amount: real, before: real, weight: real, total: real)
    requires total > 0.0
    ensures Rest(amount, 0.0, total) == amount
    ensures Rest(amount, before, total) - Portion(amount, weight, total) == Rest(amount, before + weight, total)
    ensures before + weight == total ==> Rest(amount, before, total) == Portion(amount, weight, total)
  {
    assert (before + weight) / total == before / total + weight / total;
    assert total / total == 1.0;
    assert amount * (1.0 - before / total) - amount * (weight / total) ==
      amount * (1.0 - before / total - weight / total);
    if before + weight == total {
      assert 1.0 - before / total == weight / total;
    }
  }

  lemma PortionNonnegative(amount: real, weight: real, total: real)
    requires amount >= 0.0 && weight >= 0.0 && total > 0.0
    ensures Portion(amount, weight, total) >= 0.0
  {
    assert weight / total >= 0.0;
  }

  function RealSum(values: seq<real>): real {
    if values == [] then 0.0 else values[0] + RealSum(values[1..])
  }

  lemma {:induction false} RealSumUpdate(values: seq<real>, i: nat, v: real)
    requires i < |values|
    ensures RealSum(values[i := v]) == RealSum(values) - values[i] + v
  {
    if i > 0 {
      RealSumUpdate(values[1..], i - 1, v);
      assert values[i := v][1..] == values[1..][i - 1 := v];
    } else {
      assert values[0 := v][1..] == values[1..];
    }
  }

  lemma {:induction false} RealSumConcat(a: seq<real>, b: seq<real>)
    ensures RealSum(a + b) == RealSum(a) + RealSum(b)
  {
    if a == [] {
      assert a + b == b;
    } else {
      assert (a + b)[1..] == a[1..] + b;
      RealSumConcat(a[1..], b);
    }
  }

  lemma {:induction false} RealSumZero(n: nat)
    ensures RealSum(seq(n, _ => 0.0)) == 0.0
  {
    if n > 0 {
      RealSumZero(n - 1);
      assert seq(n, _ => 0.0)[1..] == seq(n - 1, _ => 0.0);
    }
  }

  lemma {:induction false} RealSumNonnegative(values: seq<real>)
    requires forall i :: 0 <= i < |values| ==> values[i] >= 0.0
    ensures RealSum(values) >= 0.0
    ensures forall i :: 0 <= i < |values| ==> values[i] <= RealSum(values)
  {
    if values != [] {
      RealSumNonnegative(values[1..]);
      forall i | 0 <= i < |values| ensures values[i] <= RealSum(values) {
        if i > 0 {
          assert values[i] == values[1..][i - 1];
        }
      }
    }
  }
}
