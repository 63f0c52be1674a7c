/** The scalar field of alt-BN128 (EIP-196, section "Parameters"), and the
    arithmetic of the three pairing groups written on discrete logarithms. */
module ScalarField {

  /** The BN254 group order Fr. */
  const R: int := 0x30644e72e131a029b85045b68181585d2833e84879b9709143e1f593f0000001

  type Scalar = x: int | 0 <= x < R witness 0

  /** (a + b) mod R, see `AddIsModular`. */
  function Add(a: Scalar, b: Scalar): Scalar { if a + b < R then a + b else a + b - R }

  function Neg(a: Scalar): Scalar { if a == 0 then 0 else R - a }

  function Sub(a: Scalar, b: Scalar): Scalar { Add(a, Neg(b)) }

  function Mul(a: Scalar, b: Scalar): Scalar { (a * b) % R }

  lemma AddIsModular(a: Scalar, b: Scalar)
    ensures Add(a, b) == (a + b) % R
  {
    DivModUnique(a + b, R, if a + b < R then 0 else 1, Add(a, b));
  }

  lemma AddLaws(a: Scalar, b: Scalar, c: Scalar)
    ensures Add(a, b) == Add(b, a)
    ensures Add(a, 0) == a
    ensures Add(Add(a, b), c) == Add(a, Add(b, c))
  {}

  lemma SubLaws(a: Scalar, b: Scalar)
    ensures Sub(Add(a, b), b) == a
    ensures Add(Sub(a, b), b) == a
  {}

  /** (a + b) + (c + d) == (a + c) + (b + d). */
  lemma AddInterchange(a: Scalar, b: Scalar, c: Scalar, d: Scalar)
    ensures Add(Add(a, b), Add(c, d)) == Add(Add(a, c), Add(b, d))
  {
    AddLaws(a, b, Add(c, d));
    AddLaws(b, c, d);
    AddLaws(c, b, d);
    AddLaws(a, c, Add(b, d));
  }

  // ----- multiplication and divisibility -----

  /** Two integers that differ by a multiple of R have one residue. */
  lemma SameResidue(x: int, y: int, k: int)
    requires x == y + k * R
    ensures x % R == y % R
  {}

  lemma MulComm(a: Scalar, b: Scalar)
    ensures Mul(a, b) == Mul(b, a)
  {}

  /** Reducing a factor first changes nothing. */
  lemma ReduceFactor(s: int, x: int)
    ensures ((s % R) * x) % R == (s * x) % R
  {
    var w := s / R;
    assert (s % R) * x == s * x + (-(w * x)) * R by {
      assert s % R == s - w * R;
      assert (s - w * R) * x == s * x - w * R * x;
    }
    SameResidue((s % R) * x, s * x, -(w * x));
  }

  /** Nor does reducing a summand. */
  lemma ReduceSummands(a: int, b: int)
    ensures (a % R + b % R) % R == (a + b) % R
    ensures (a + b % R) % R == (a + b) % R
  {}

  lemma MulAddDistributes(h: Scalar, a: Scalar, b: Scalar)
    ensures Mul(h, Add(a, b)) == Add(Mul(h, a), Mul(h, b))
  {
    DistributeResidues(h, a, b);
    AddIsModular(a, b);
    AddIsModular(Mul(h, a), Mul(h, b));
  }

  lemma DistributeResidues(h: int, a: int, b: int)
    ensures (h * ((a + b) % R)) % R == ((h * a) % R + (h * b) % R) % R
  {
    ReduceFactor(a + b, h);
    Commutes(h, (a + b) % R);
    Commutes(a + b, h);
    Distributes(h, a, b);
    ReduceSummands(h * a, h * b);
  }

  lemma Commutes(x: int, y: int)
    ensures x * y == y * x
  {}

  lemma Distributes(h: int, a: int, b: int)
    ensures h * (a + b) == h * a + h * b
  {}

  ghost predicate Prime(n: int) {
    n > 1 && forall d :: 1 < d < n ==> n % d != 0
  }

  ghost predicate Divides(d: int, n: int)
    requires d > 0
  {
    n % d == 0
  }

  /** Euclid's lemma, by descending on the first factor. */
  lemma {:induction false} EuclidsLemma(p: int, a: int, b: int)
    requires Prime(p) && 0 < a < p
    requires Divides(p, a * b)
    ensures Divides(p, b)
    decreases a
  {
    if a > 1 {
      var q, m := p / a, p % a;
      assert m == p - q * a;
      var c := (a * b) / p;
      assert a * b == c * p;
      assert m * b == (b - q * c) * p by {
        assert m * b == p * b - q * (a * b);
        assert q * (c * p) == (q * c) * p;
      }
      MultipleIsDivisible(p, b - q * c, m * b);
      EuclidsLemma(p, m, b);
    }
  }

  lemma MultipleIsDivisible(p: int, k: int, n: int)
    requires p > 0 && n == k * p
    ensures Divides(p, n)
  {
    DivModUnique(n, p, k, 0);
  }

  lemma DivModUnique(n: int, p: int, k: int, m: int)
    requires p > 0 && 0 <= m < p && n == k * p + m
    ensures n / p == k && n % p == m
  {
    var q, j := n / p, n / p - k;
    assert j * p == q * p - k * p == m - n % p;
    MultipleTooLarge(j, p);
    MultipleTooLarge(-j, p);
  }

  /** A multiple of p strictly between -p and p is zero times p. */
  lemma MultipleTooLarge(j: int, p: int)
    requires p > 0
    ensures j >= 1 ==> j * p >= p
    ensures (-j) * p == -(j * p)
  {
    if j >= 1 {
      assert (j - 1) * p >= 0;
      assert j * p == (j - 1) * p + p;
    }
  }

  /** A scalar that R divides is zero. */
  lemma SmallMultiple(x: int)
    requires -R < x < R && Divides(R, x)
    ensures x == 0
  {}

  /** R divides a product of small factors only if one of them is zero. */
  lemma ProductDivides(a: int, b: int)
    requires Prime(R) && 0 <= a < R && -R < b < R
    ensures Divides(R, a * b) <==> a == 0 || b == 0
  {
    if a == 0 || b == 0 {
      assert a * b == 0;
    } else if Divides(R, a * b) {
      EuclidsLemma(R, a, b);
      SmallMultiple(b);
    }
  }
}
