/**
 BLS checks over alt-BN128 (core/src/g1_point.rs, core/src/g2_point.rs,
 core/src/privkey.rs).

 A point of G1, or of the order-R subgroup of G2, is represented by its
 discrete logarithm, so the groups are Z_R and the pairing (EIP-197) maps
 (a, b) to a * b. Decompression, hashing to the curve and the challenge hashes
 are the members of a `Suite`; every theorem quantifies over it.
 */
module Bls {
  import opened Prelude
  import opened ScalarField
  import opened NcnErrors

  type G1 = Scalar

  /** A decompressed G2 point; decompression does not check the subgroup, the
      pairing does. */
  datatype G2 = Subgroup(log: Scalar) | OffSubgroup

  /** 64 caller-supplied bytes, which need not be a curve point. */
  datatype RawG1 = OnCurve(point: G1) | OffCurve

  const G1_GENERATOR: G1 := 1
  const G2_MINUS_ONE: Scalar := R - 1

  datatype Suite = Suite(
    decompressG1: Bytes32 -> Option<G1>,
    compressG1: G1 -> Bytes32,
    decompressG2: Bytes64 -> Option<G2>,
    compressG2: G2 -> Bytes64,
    hashToCurve: Bytes32 -> Option<G1>,
    certificateGamma: (Bytes32, G1, G2, G1) -> Scalar,
    popGamma: (RawG1, G1, G2, G1) -> Scalar,
    popDigest: (Pubkey, Bytes32) -> Bytes32
  )
  {
    /** Compression is undone by decompression, and the identity (0,0) is
        compressed to 32 zero bytes. Other encodings may also decompress. */
    ghost predicate Lawful() {
      && (forall p: G1 :: decompressG1(compressG1(p)) == Some(p))
      && compressG1(0) == ZERO32
      && (forall x: Scalar :: decompressG2(compressG2(Subgroup(x))) == Some(Subgroup(x)))
    }
  }

  /** The pairing syscall on (p, q) and (s, -G2): does the product equal one? */
  function PairingProductIsOne(p: RawG1, q: G2, s: RawG1): Option<bool> {
    if p.OffCurve? || q.OffSubgroup? || s.OffCurve? then
      None
    else
      Some(Add(Mul(p.point, q.log), Mul(s.point, G2_MINUS_ONE)) == 0)
  }

  function PairingVerdict(p: RawG1, q: G2, s: RawG1): Result<(), NcnError> {
    match PairingProductIsOne(p, q, s)
    case None => Err(AltBN128PairingError)
    case Some(one) => if one then Ok(()) else Err(BlsVerificationError)
  }

  /** The equation e(h + alpha G1, q) = e(sigma + alpha key, G2) that both
      challenge-combined checks end in. */
  function CombinedCheck(h: G1, sigma: RawG1, key: G1, q: G2, alpha: Scalar): Result<(), NcnError> {
    var left := Add(h, Mul(G1_GENERATOR, alpha));
    var scaledKey := Mul(key, alpha);
    match sigma
    case OffCurve => Err(AltBN128AddError)
    case OnCurve(s) => PairingVerdict(OnCurve(left), q, OnCurve(Add(s, scaledKey)))
  }

  function VerifySignature(suite: Suite, q: G2, sigma: RawG1, digest: Bytes32): Result<(), NcnError> {
    match suite.hashToCurve(digest)
    case None => Err(HashToCurveError)
    case Some(h) => PairingVerdict(OnCurve(h), q, sigma)
  }

  function VerifyOperatorRegistration(suite: Suite, q: G2, sigma: RawG1, g1Key: Bytes32, digest: Bytes32)
    : Result<(), NcnError>
  {
    match suite.decompressG1(g1Key)
    case None => Err(G1PointDecompressionError)
    case Some(key) =>
      match suite.hashToCurve(digest)
      case None => Err(HashToCurveError)
      case Some(h) => CombinedCheck(h, sigma, key, q, suite.popGamma(sigma, key, q, h))
  }

  function VerifyAggregatedSignature(suite: Suite, q: G2, sigma: G1, digest: Bytes32, apk1: G1)
    : Result<(), NcnError>
  {
    match suite.hashToCurve(digest)
    case None => Err(HashToCurveError)
    case Some(h) => CombinedCheck(h, OnCurve(sigma), apk1, q, suite.certificateGamma(digest, apk1, q, sigma))
  }

  /** Do the G1 and G2 keys come from one secret? Zero points are refused. */
  function VerifyG2(key: G1, q: G2): Result<bool, NcnError> {
    if key == 0 || q == Subgroup(0) then
      Ok(false)
    else
      match PairingProductIsOne(OnCurve(G1_GENERATOR), q, OnCurve(key))
      case None => Err(AltBN128PairingError)
      case Some(one) => Ok(one)
  }

  function Sign(suite: Suite, secret: Scalar, digest: Bytes32): Option<G1> {
    match suite.hashToCurve(digest)
    case None => None
    case Some(h) => Some(Mul(h, secret))
  }

  // ----- what the equations mean -----

  lemma PairingMeaning(p: G1, x: Scalar, s: G1)
    ensures PairingProductIsOne(OnCurve(p), Subgroup(x), OnCurve(s)) == Some(Mul(p, x) == s)
  {
    TimesMinusOne(s);
  }

  lemma TimesMinusOne(s: Scalar)
    ensures Mul(s, G2_MINUS_ONE) == Neg(s)
  {
    DivModUnique(s * G2_MINUS_ONE, R, if s == 0 then 0 else s - 1, Neg(s));
  }

  /** h·x2 - sigma + alpha (x2 - x1): the combined check asks for zero mod R. */
  function Discrepancy(h: G1, sigma: G1, x1: Scalar, x2: Scalar, alpha: int): int {
    h * x2 - sigma + alpha * (x2 - x1)
  }

  lemma CombinedEquation(h: G1, sigma: G1, x1: Scalar, x2: Scalar, alpha: Scalar)
    ensures CombinedCheck(h, OnCurve(sigma), x1, Subgroup(x2), alpha).Ok?
       <==> Mul(Add(h, alpha), x2) == Add(sigma, Mul(x1, alpha))
  {
    DivModUnique(alpha, R, 0, alpha);
    assert Mul(G1_GENERATOR, alpha) == alpha;
    PairingMeaning(Add(h, alpha), x2, Add(sigma, Mul(x1, alpha)));
  }

  lemma CombinedIsDiscrepancy(h: G1, sigma: G1, x1: Scalar, x2: Scalar, alpha: Scalar)
    ensures CombinedCheck(h, OnCurve(sigma), x1, Subgroup(x2), alpha).Ok?
       <==> Divides(R, Discrepancy(h, sigma, x1, x2, alpha))
  {
    CombinedEquation(h, sigma, x1, x2, alpha);
    AddIsModular(h, alpha);
    AddIsModular(sigma, Mul(x1, alpha));
    CombinedResidues(h, sigma, x1, x2, alpha);
  }

  lemma CombinedResidues(h: int, sigma: int, x1: int, x2: int, alpha: int)
    ensures (((h + alpha) % R) * x2) % R == (sigma + (x1 * alpha) % R) % R
       <==> Divides(R, h * x2 - sigma + alpha * (x2 - x1))
  {
    ReduceFactor(h + alpha, x2);
    ReduceSummands(sigma, x1 * alpha);
    RearrangeDiscrepancy(h, sigma, x1, x2, alpha);
    SameResidueIffDifferenceDivides((h + alpha) * x2, sigma + x1 * alpha);
  }

  lemma RearrangeDiscrepancy(h: int, sigma: int, x1: int, x2: int, alpha: int)
    ensures (h + alpha) * x2 - (sigma + x1 * alpha) == h * x2 - sigma + alpha * (x2 - x1)
  {}

  lemma SameResidueIffDifferenceDivides(a: int, b: int)
    ensures a % R == b % R <==> Divides(R, a - b)
  {}

  /** Completeness: a signature by the key that matches the G1 aggregate
      passes whatever the challenge. */
  lemma CombinedComplete(h: G1, x: Scalar, alpha: Scalar)
    ensures CombinedCheck(h, OnCurve(Mul(h, x)), x, Subgroup(x), alpha).Ok?
  {
    CombinedEquation(h, Mul(h, x), x, x, alpha);
    MulComm(Add(h, alpha), x);
    MulAddDistributes(x, h, alpha);
    MulComm(x, h);
  }

  /** Exactly when a signature by the secret x passes against another key: for
      no challenge but zero. */
  lemma HonestCombinedIff(h: G1, x: Scalar, key: Scalar, alpha: Scalar)
    requires Prime(R)
    ensures CombinedCheck(h, OnCurve(Mul(h, x)), key, Subgroup(x), alpha).Ok? <==> key == x || alpha == 0
  {
    CombinedIsDiscrepancy(h, Mul(h, x), key, x, alpha);
    HonestDiscrepancy(h * x, alpha * (x - key));
    ProductDivides(alpha, x - key);
  }

  lemma HonestDiscrepancy(product: int, rest: int)
    ensures Divides(R, product - product % R + rest) <==> Divides(R, rest)
  {
    SameResidue(product - product % R + rest, rest, product / R);
  }

  /** Soundness: two distinct passing challenges force both the signature
      equation and the agreement of the two keys. */
  lemma TwoChallengesForceValidity(h: G1, sigma: G1, x1: Scalar, x2: Scalar, alpha: Scalar, beta: Scalar)
    requires Prime(R) && alpha != beta
    requires CombinedCheck(h, OnCurve(sigma), x1, Subgroup(x2), alpha).Ok?
    requires CombinedCheck(h, OnCurve(sigma), x1, Subgroup(x2), beta).Ok?
    ensures x1 == x2 && sigma == Mul(h, x2)
  {
    CombinedIsDiscrepancy(h, sigma, x1, x2, alpha);
    CombinedIsDiscrepancy(h, sigma, x1, x2, beta);
    ChallengeDifference(h, sigma, x1, x2, if alpha > beta then alpha else beta, if alpha > beta then beta else alpha);
    NoKeyDiscrepancy(h, sigma, x2, alpha);
  }

  lemma NoKeyDiscrepancy(h: G1, sigma: G1, x: Scalar, alpha: int)
    requires Divides(R, Discrepancy(h, sigma, x, x, alpha))
    ensures sigma == Mul(h, x)
  {
    assert alpha * (x - x) == 0;
    SameResidueIffDifferenceDivides(h * x, sigma);
    DivModUnique(sigma, R, 0, sigma);
  }

  lemma ChallengeDifference(h: G1, sigma: G1, x1: Scalar, x2: Scalar, alpha: Scalar, beta: Scalar)
    requires Prime(R) && alpha > beta
    requires Divides(R, Discrepancy(h, sigma, x1, x2, alpha))
    requires Divides(R, Discrepancy(h, sigma, x1, x2, beta))
    ensures x1 == x2
  {
    var a, b := Discrepancy(h, sigma, x1, x2, alpha), Discrepancy(h, sigma, x1, x2, beta);
    assert a - b == (alpha - beta) * (x2 - x1) by {
      assert (alpha - beta) * (x2 - x1) == alpha * (x2 - x1) - beta * (x2 - x1);
    }
    SameResidueIffDifferenceDivides(a, b);
    EuclidsLemma(R, alpha - beta, x2 - x1);
    SmallMultiple(x2 - x1);
  }

  /** The combined equation is exact except on at most one challenge: it holds
      for every challenge iff the signature and the key pair are both right,
      and otherwise for at most one. */
  lemma ChallengeSoundness(h: G1, sigma: G1, x1: Scalar, x2: Scalar)
    requires Prime(R)
    ensures x1 == x2 && sigma == Mul(h, x2) <==>
            forall alpha: Scalar :: CombinedCheck(h, OnCurve(sigma), x1, Subgroup(x2), alpha).Ok?
    ensures !(x1 == x2 && sigma == Mul(h, x2)) ==>
            forall alpha: Scalar, beta: Scalar ::
              (CombinedCheck(h, OnCurve(sigma), x1, Subgroup(x2), alpha).Ok? &&
               CombinedCheck(h, OnCurve(sigma), x1, Subgroup(x2), beta).Ok?) ==> alpha == beta
  {
    if x1 == x2 && sigma == Mul(h, x2) {
      forall alpha: Scalar ensures CombinedCheck(h, OnCurve(sigma), x1, Subgroup(x2), alpha).Ok? {
        CombinedComplete(h, x2, alpha);
      }
    } else {
      forall alpha: Scalar, beta: Scalar
        | CombinedCheck(h, OnCurve(sigma), x1, Subgroup(x2), alpha).Ok? &&
          CombinedCheck(h, OnCurve(sigma), x1, Subgroup(x2), beta).Ok?
        ensures alpha == beta
      {
        if alpha != beta {
          TwoChallengesForceValidity(h, sigma, x1, x2, alpha, beta);
        }
      }
      var zero: Scalar, one: Scalar := 0, 1;
      if CombinedCheck(h, OnCurve(sigma), x1, Subgroup(x2), zero).Ok? {
        assert !CombinedCheck(h, OnCurve(sigma), x1, Subgroup(x2), one).Ok?;
      }
    }
  }

  /** An accepted aggregate is valid unless its own challenge is the one value
      at which a wrong aggregate passes. */
  lemma AggregateSoundness(suite: Suite, q: G2, sigma: G1, digest: Bytes32, apk1: G1)
    requires Prime(R)
    requires VerifyAggregatedSignature(suite, q, sigma, digest, apk1).Ok?
    ensures q.Subgroup? && suite.hashToCurve(digest).Some?
    ensures var h := suite.hashToCurve(digest).value;
            || (q.log == apk1 && sigma == Mul(h, apk1))
            || forall alpha: Scalar ::
                 CombinedCheck(h, OnCurve(sigma), apk1, q, alpha).Ok? <==>
                 alpha == suite.certificateGamma(digest, apk1, q, sigma)
  {
    ChallengeSoundness(suite.hashToCurve(digest).value, sigma, apk1, q.log);
  }

  /** The same for the proof of possession at registration. */
  lemma RegistrationSoundness(suite: Suite, q: G2, sigma: RawG1, g1Key: Bytes32, digest: Bytes32)
    requires Prime(R)
    requires VerifyOperatorRegistration(suite, q, sigma, g1Key, digest).Ok?
    ensures q.Subgroup? && sigma.OnCurve?
    ensures suite.decompressG1(g1Key).Some? && suite.hashToCurve(digest).Some?
    ensures var key, h := suite.decompressG1(g1Key).value, suite.hashToCurve(digest).value;
            || (q.log == key && sigma.point == Mul(h, key))
            || forall alpha: Scalar ::
                 CombinedCheck(h, sigma, key, q, alpha).Ok? <==>
                 alpha == suite.popGamma(sigma, key, q, h)
  {
    ChallengeSoundness(suite.hashToCurve(digest).value, sigma.point, suite.decompressG1(g1Key).value, q.log);
  }

  /** A key rotation is held to the exact equations: both keys are the same
      nonzero multiple of the generators and the signature is the new key's. */
  lemma RotationChecksMeaning(suite: Suite, key: G1, q: G2, sigma: RawG1, digest: Bytes32)
    ensures VerifyG2(key, q) == Ok(true) && VerifySignature(suite, q, sigma, digest).Ok? <==>
            && key != 0 && q == Subgroup(key)
            && sigma.OnCurve? && Sign(suite, key, digest) == Some(sigma.point)
  {
    if q.Subgroup? {
      PairingMeaning(G1_GENERATOR, q.log, key);
      if sigma.OnCurve? && suite.hashToCurve(digest).Some? {
        PairingMeaning(suite.hashToCurve(digest).value, q.log, sigma.point);
      }
    }
  }
}
