/** Sums of sequences of curve points (logarithms) and of stakes. */
module Sums {
  import opened ScalarField

  /** The group sum of the first n points. */
  function KeySum(points: seq<Scalar>, n: nat): Scalar
    requires n <= |points|
  {
    if n == 0 then 0 else Add(KeySum(points, n - 1), points[n - 1])
  }

  function NatSum(s: seq<nat>, n: nat): nat
    requires n <= |s|
  {
    if n == 0 then 0 else NatSum(s, n - 1) + s[n - 1]
  }

  lemma {:induction false} KeySumPrefix(a: seq<Scalar>, b: seq<Scalar>, n: nat)
    requires n <= |a| && n <= |b|
    requires forall i :: 0 <= i < n ==> a[i] == b[i]
    ensures KeySum(a, n) == KeySum(b, n)
  {
    if n > 0 {
      KeySumPrefix(a, b, n - 1);
    }
  }

  /** Replacing one point replaces it in the sum. */
  lemma {:induction false} KeySumUpdate(a: seq<Scalar>, i: nat, x: Scalar, n: nat)
    requires i < n <= |a|
    ensures KeySum(a[i := x], n) == Add(Sub(KeySum(a, n), a[i]), x)
  {
    if i == n - 1 {
      KeySumPrefix(a, a[i := x], i);
      SubLaws(KeySum(a, i), a[i]);
    } else {
      KeySumUpdate(a, i, x, n - 1);
      var s, k := KeySum(a, n - 1), a[n - 1];
      AddLaws(Sub(s, a[i]), x, k);
      AddLaws(x, k, 0);
      AddLaws(Sub(s, a[i]), k, x);
      AddLaws(s, Neg(a[i]), k);
      AddLaws(Neg(a[i]), k, 0);
      AddLaws(s, k, Neg(a[i]));
    }
  }

  /** Pointwise addition adds the sums. */
  lemma {:induction false} KeySumAdds(a: seq<Scalar>, b: seq<Scalar>, c: seq<Scalar>, n: nat)
    requires n <= |a| && n <= |b| && n <= |c|
    requires forall i :: 0 <= i < n ==> c[i] == Add(a[i], b[i])
    ensures KeySum(c, n) == Add(KeySum(a, n), KeySum(b, n))
  {
    if n > 0 {
      KeySumAdds(a, b, c, n - 1);
      AddInterchange(KeySum(a, n - 1), KeySum(b, n - 1), a[n - 1], b[n - 1]);
    }
  }

  /** Scaling every point scales the sum. */
  lemma {:induction false} KeySumScales(h: Scalar, a: seq<Scalar>, b: seq<Scalar>, n: nat)
    requires n <= |a| && n <= |b|
    requires forall i :: 0 <= i < n ==> b[i] == Mul(h, a[i])
    ensures KeySum(b, n) == Mul(h, KeySum(a, n))
  {
    if n > 0 {
      KeySumScales(h, a, b, n - 1);
      MulAddDistributes(h, KeySum(a, n - 1), a[n - 1]);
    }
  }

  lemma {:induction false} KeySumOfZeros(a: seq<Scalar>, n: nat)
    requires n <= |a|
    requires forall i :: 0 <= i < n ==> a[i] == 0
    ensures KeySum(a, n) == 0
  {
    if n > 0 {
      KeySumOfZeros(a, n - 1);
    }
  }

  /** Zeros at the end add nothing. */
  lemma {:induction false} KeySumZeroTail(a: seq<Scalar>, m: nat, n: nat)
    requires m <= n <= |a|
    requires forall i :: m <= i < n ==> a[i] == 0
    ensures KeySum(a, n) == KeySum(a, m)
  {
    if m < n {
      KeySumZeroTail(a, m, n - 1);
      AddLaws(KeySum(a, n - 1), 0, 0);
    }
  }

  /** `points` at the listed positions, in list order. */
  function Select(points: seq<Scalar>, order: seq<nat>): seq<Scalar>
    requires forall k :: 0 <= k < |order| ==> order[k] < |points|
  {
    seq(|order|, k requires 0 <= k < |order| => points[order[k]])
  }

  /** `points` with everything outside the list set to zero. */
  function Mask(points: seq<Scalar>, order: seq<nat>): seq<Scalar> {
    seq(|points|, i requires 0 <= i < |points| => if i in order then points[i] else 0)
  }

  /** Summing a duplicate-free selection in any order is summing the masked
      whole. */
  lemma {:induction false} SelectionSum(points: seq<Scalar>, order: seq<nat>)
    requires forall k :: 0 <= k < |order| ==> order[k] < |points|
    requires forall k, l :: 0 <= k < l < |order| ==> order[k] != order[l]
    ensures KeySum(Select(points, order), |order|) == KeySum(Mask(points, order), |points|)
  {
    if order == [] {
      KeySumOfZeros(Mask(points, order), |points|);
    } else {
      var rest, j := order[..|order| - 1], order[|order| - 1];
      SelectionSum(points, rest);
      KeySumPrefix(Select(points, order), Select(points, rest), |rest|);
      assert order == rest + [j];
      assert Mask(points, order) == Mask(points, rest)[j := points[j]];
      KeySumUpdate(Mask(points, rest), j, points[j], |points|);
      assert Sub(KeySum(Mask(points, rest), |points|), 0) == KeySum(Mask(points, rest), |points|);
    }
  }

  lemma {:induction false} NatSumPrefix(a: seq<nat>, b: seq<nat>, n: nat)
    requires n <= |a| && n <= |b|
    requires forall i :: 0 <= i < n ==> a[i] == b[i]
    ensures NatSum(a, n) == NatSum(b, n)
  {
    if n > 0 {
      NatSumPrefix(a, b, n - 1);
    }
  }

  lemma {:induction false} NatSumUpdate(a: seq<nat>, i: nat, x: nat, n: nat)
    requires i < n <= |a|
    ensures NatSum(a[i := x], n) == NatSum(a, n) - a[i] + x
  {
    if i == n - 1 {
      NatSumPrefix(a, a[i := x], i);
    } else {
      NatSumUpdate(a, i, x, n - 1);
    }
  }

  lemma {:induction false} NatSumBound(a: seq<nat>, n: nat, bound: nat)
    requires n <= |a|
    requires forall i :: 0 <= i < n ==> a[i] <= bound
    ensures NatSum(a, n) <= n * bound
  {
    if n > 0 {
      NatSumBound(a, n - 1, bound);
      assert n * bound == (n - 1) * bound + bound;
    }
  }

  lemma {:induction false} NatSumMonotone(a: seq<nat>, b: seq<nat>, n: nat)
    requires n <= |a| && n <= |b|
    requires forall i :: 0 <= i < n ==> a[i] <= b[i]
    ensures NatSum(a, n) <= NatSum(b, n)
  {
    if n > 0 {
      NatSumMonotone(a, b, n - 1);
    }
  }

  lemma {:induction false} NatSumZeroTail(a: seq<nat>, m: nat, n: nat)
    requires m <= n <= |a|
    requires forall i :: m <= i < n ==> a[i] == 0
    ensures NatSum(a, n) == NatSum(a, m)
  {
    if m < n {
      NatSumZeroTail(a, m, n - 1);
    }
  }

  lemma {:induction false} NatSumPrefixesGrow(a: seq<nat>, m: nat, n: nat)
    requires m <= n <= |a|
    ensures NatSum(a, m) <= NatSum(a, n)
  {
    if m < n {
      NatSumPrefixesGrow(a, m, n - 1);
    }
  }

  /** A positive sum has a positive term. */
  lemma {:induction false} PositiveTerm(a: seq<nat>, n: nat) returns (i: nat)
    requires n <= |a| && NatSum(a, n) > 0
    ensures i < n && a[i] > 0
  {
    if a[n - 1] > 0 {
      i := n - 1;
    } else {
      i := PositiveTerm(a, n - 1);
    }
  }
}
