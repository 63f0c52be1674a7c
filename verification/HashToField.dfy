/**
 Fixed-width big-endian field elements: the negation of an encoded point
 (core/src/g1_point.rs), the reduction of challenges (core/src/utils.rs) and
 hashing to the curve (core/src/schemes/sha256_normalized.rs). Coordinates are
 32-byte big-endian integers (EIP-196, section "Encoding").
 */
module HashToField {
  import opened Prelude
  import opened NcnErrors
  import opened ScalarField
  import opened Bls
  import opened LittleEndian

  /** The BN254 base field modulus. */
  const MODULUS: nat := 0x30644e72e131a029b85045b68181585d97816a916871ca8d3c208c16d87cfd47

  /** Hashes from here on are rejected. */
  const NORMALIZE_MODULUS: nat := 0xf1f5883e65f820d099915c908786b9d3f58714d70a38f4c22ca2bc723a70f263

  const TWO_256: nat := 0x1_0000_0000_0000_0000_0000_0000_0000_0000_0000_0000_0000_0000_0000_0000_0000_0000

  // ----- big-endian integers -----

  function FromBe(b: Bytes): nat {
    if b == [] then 0 else 256 * FromBe(b[..|b| - 1]) + b[|b| - 1]
  }

  /** Without leading zero bytes. */
  function MinimalBe(x: nat): Bytes {
    if x == 0 then [] else MinimalBe(x / 256) + [x % 256]
  }

  lemma Pow256Is(n: nat)
    requires n == 32
    ensures Pow256(n) == TWO_256
  {
    assert Pow256(4) == 0x1_0000_0000;
    assert Pow256(8) == 0x1_0000_0000_0000_0000;
    assert Pow256(12) == 0x1_0000_0000_0000_0000_0000_0000;
    assert Pow256(16) == 0x1_0000_0000_0000_0000_0000_0000_0000_0000;
    assert Pow256(20) == 0x1_0000_0000_0000_0000_0000_0000_0000_0000_0000_0000;
    assert Pow256(24) == 0x1_0000_0000_0000_0000_0000_0000_0000_0000_0000_0000_0000_0000;
    assert Pow256(28) == 0x1_0000_0000_0000_0000_0000_0000_0000_0000_0000_0000_0000_0000_0000_0000;
  }

  lemma {:induction false} MinimalBeFits(x: nat, n: nat)
    requires x < Pow256(n)
    ensures |MinimalBe(x)| <= n && FromBe(MinimalBe(x)) == x
  {
    if x > 0 {
      MinimalBeFits(x / 256, n - 1);
      assert MinimalBe(x)[..|MinimalBe(x)| - 1] == MinimalBe(x / 256);
    }
  }

  lemma {:induction false} LeadingZeros(k: nat, b: Bytes)
    ensures FromBe(Zeros(k) + b) == FromBe(b)
  {
    if b == [] {
      ZerosAreZero(k);
      assert Zeros(k) + b == Zeros(k);
    } else {
      LeadingZeros(k, b[..|b| - 1]);
      assert (Zeros(k) + b)[..k + |b| - 1] == Zeros(k) + b[..|b| - 1];
    }
  }

  lemma {:induction false} ZerosAreZero(k: nat)
    ensures FromBe(Zeros(k)) == 0
  {
    if k > 0 {
      ZerosAreZero(k - 1);
      assert Zeros(k)[..k - 1] == Zeros(k - 1);
    }
  }

  lemma {:induction false} FromBeBound(b: Bytes)
    ensures FromBe(b) < Pow256(|b|)
  {
    if b != [] {
      FromBeBound(b[..|b| - 1]);
    }
  }

  lemma {:induction false} FromBeInjective(a: Bytes, b: Bytes)
    requires |a| == |b| && FromBe(a) == FromBe(b)
    ensures a == b
  {
    if a != [] {
      FromBeInjective(a[..|a| - 1], b[..|b| - 1]);
      assert a == a[..|a| - 1] + [a[|a| - 1]] && b == b[..|b| - 1] + [b[|b| - 1]];
    }
  }

  /** The minimal form, left-padded to 32 bytes: always 32 bytes, always the
      same value. */
  function Padded32(x: nat): (b: Bytes32)
    requires x < TWO_256
    ensures FromBe(b) == x
  {
    Pow256Is(32);
    MinimalBeFits(x, 32);
    LeadingZeros(32 - |MinimalBe(x)|, MinimalBe(x));
    Zeros(32 - |MinimalBe(x)|) + MinimalBe(x)
  }

  lemma ValueBelow256(b: Bytes32)
    ensures FromBe(b) < TWO_256
    ensures Padded32(FromBe(b)) == b
  {
    Pow256Is(32);
    FromBeBound(b);
    FromBeInjective(Padded32(FromBe(b)), b);
  }

  /** Challenges are reduced modulo the group order, not the field modulus. */
  function ReduceModFr(hash: Bytes32): (out: Bytes32)
    ensures FromBe(out) == FromBe(hash) % R < R
    ensures FromBe(hash) < R ==> out == hash
  {
    ValueBelow256(hash);
    var reduced := FromBe(hash) % R;
    assert FromBe(hash) < R ==> reduced == FromBe(hash);
    Padded32(reduced)
  }

  // ----- point negation -----

  /** y² = x³ + 3 over the base field; the identity (0,0) is left out. */
  ghost predicate OnCurvePoint(x: int, y: int) {
    (y * y - (x * x * x + 3)) % MODULUS == 0
  }

  function NegatedY(y: nat): nat
    requires y <= MODULUS
  {
    if y == 0 then 0 else (MODULUS - y) % MODULUS
  }

  method Negate(point: Bytes64) returns (r: Bytes64)
    requires FromBe(point[32..]) <= MODULUS
    ensures r == point[..32] + Padded32(NegatedY(FromBe(point[32..])))
  {
    var y := FromBe(point[32..]);
    var negY := if y == 0 then 0 else (MODULUS - y) % MODULUS;
    var padded := PadTo32(negY);
    r := point[..32] + padded;
  }

  method PadTo32(x: nat) returns (r: Bytes32)
    requires x < TWO_256
    ensures r == Padded32(x)
  {
    var bytes := MinimalBe(x);
    Pow256Is(32);
    MinimalBeFits(x, 32);
    var padded: Bytes := [];
    for i := 0 to 32 - |bytes|
      invariant padded == Zeros(i)
    {
      padded := padded + [0];
    }
    r := padded + bytes;
  }

  lemma NegationOfPositive(y: nat)
    requires 0 < y < MODULUS
    ensures NegatedY(y) == MODULUS - y && NegatedY(MODULUS - y) == y
  {
    SmallRemainder(MODULUS - y);
    SmallRemainder(y);
  }

  lemma SmallRemainder(x: nat)
    requires x < MODULUS
    ensures x % MODULUS == x && MODULUS % MODULUS == 0
  {}

  /** Both square roots meet one curve equation, whatever its right-hand side. */
  lemma NegationSquares(c: int, y: int, n: int)
    requires n == MODULUS - y
    ensures (n * n - c) % MODULUS == (y * y - c) % MODULUS
  {
    SquareOfNegation(y, n);
    SameMod(n * n - c, y * y - c, MODULUS - 2 * y);
  }

  lemma SquareOfNegation(y: int, n: int)
    requires n == MODULUS - y
    ensures n * n == y * y + (MODULUS - 2 * y) * MODULUS
  {
    assert n * n == n * (MODULUS - y) == n * MODULUS - n * y;
    assert n * y == MODULUS * y - y * y;
  }

  /** Negation stays on the curve and, for a reduced y, undoes itself. */
  lemma NegationLaws(x: nat, y: nat)
    requires y < MODULUS
    ensures NegatedY(y) < MODULUS && NegatedY(NegatedY(y)) == y
    ensures (y + NegatedY(y)) % MODULUS == 0
    ensures OnCurvePoint(x, y) <==> OnCurvePoint(x, NegatedY(y))
  {
    if y > 0 {
      NegationOfPositive(y);
      SmallRemainder(0);
      NegationSquares(x * x * x + 3, y, MODULUS - y);
    }
  }

  lemma SameMod(a: int, b: int, k: int)
    requires a == b + k * MODULUS
    ensures a % MODULUS == b % MODULUS
  {}

  /** On encoded points: double negation is the identity. */
  lemma NegateTwice(point: Bytes64)
    requires FromBe(point[32..]) < MODULUS
    ensures var once := point[..32] + Padded32(NegatedY(FromBe(point[32..])));
            && |once| == 64 && FromBe(once[32..]) < MODULUS
            && once[..32] + Padded32(NegatedY(FromBe(once[32..]))) == point
  {
    var y := FromBe(point[32..]);
    NegationLaws(0, y);
    var once := point[..32] + Padded32(NegatedY(y));
    assert once[32..] == Padded32(NegatedY(y)) && once[..32] == point[..32];
    ValueBelow256(point[32..]);
    assert point == point[..32] + point[32..];
  }

  // ----- hashing to the curve -----

  /** The hash for one counter, and the decompression of candidates. */
  datatype Hasher = Hasher(hash: (Bytes32, nat) -> Bytes32, decompress: Bytes32 -> Option<G1>)

  function Attempt(hasher: Hasher, digest: Bytes32, counter: nat): Option<G1> {
    var value := FromBe(hasher.hash(digest, counter));
    if value >= NORMALIZE_MODULUS then None else hasher.decompress(Padded32(value % MODULUS))
  }

  const MAX_COUNTER: nat := 254

  function TryFrom(hasher: Hasher, digest: Bytes32, counter: nat): Option<G1>
    requires counter <= MAX_COUNTER + 1
    decreases MAX_COUNTER + 1 - counter
  {
    if counter > MAX_COUNTER then None
    else
      var attempt := Attempt(hasher, digest, counter);
      if attempt.Some? then attempt else TryFrom(hasher, digest, counter + 1)
  }

  function TryHashToCurve(hasher: Hasher, digest: Bytes32): Option<G1> {
    TryFrom(hasher, digest, 0)
  }

  /** The 32 bytes tried for a hash value: it lies below five moduli and the bytes
      are its residue. */
  predicate CandidateAt(value: nat, x: Bytes32) {
    value < 5 * MODULUS && FromBe(x) == value % MODULUS
  }

  /** This counter's hash gives the point. */
  ghost predicate Gives(hasher: Hasher, digest: Bytes32, counter: nat, p: G1) {
    exists x: Bytes32 :: CandidateAt(FromBe(hasher.hash(digest, counter)), x) && hasher.decompress(x) == Some(p)
  }

  ghost predicate GivesNothing(hasher: Hasher, digest: Bytes32, counter: nat) {
    forall p: G1 :: !Gives(hasher, digest, counter, p)
  }

  lemma AttemptGives(hasher: Hasher, digest: Bytes32, counter: nat, p: G1)
    ensures Attempt(hasher, digest, counter) == Some(p) <==> Gives(hasher, digest, counter, p)
  {
    var value := FromBe(hasher.hash(digest, counter));
    if value < 5 * MODULUS {
      var x := Padded32(value % MODULUS);
      assert CandidateAt(value, x);
      forall other: Bytes32 | CandidateAt(value, other) ensures other == x {
        FromBeInjective(other, x);
      }
    }
  }

  lemma AttemptGivesNothing(hasher: Hasher, digest: Bytes32, counter: nat)
    ensures Attempt(hasher, digest, counter).None? <==> GivesNothing(hasher, digest, counter)
  {
    if Attempt(hasher, digest, counter).None? {
      forall p: G1 ensures !Gives(hasher, digest, counter, p) {
        AttemptGives(hasher, digest, counter, p);
      }
    } else {
      AttemptGives(hasher, digest, counter, Attempt(hasher, digest, counter).value);
    }
  }

  /** The least counter from `from` on that gives a point gives this one. */
  ghost predicate FirstGives(hasher: Hasher, digest: Bytes32, from: nat, n: nat, p: G1) {
    && from <= n <= 254 && Gives(hasher, digest, n, p)
    && forall k :: from <= k < n ==> GivesNothing(hasher, digest, k)
  }

  ghost predicate SomeFirstGives(hasher: Hasher, digest: Bytes32, from: nat, p: G1) {
    exists n :: FirstGives(hasher, digest, from, n, p)
  }

  lemma {:induction false} FirstGivesFrom(hasher: Hasher, digest: Bytes32, from: nat, p: G1)
    requires from <= MAX_COUNTER + 1
    ensures TryFrom(hasher, digest, from) == Some(p) <==> SomeFirstGives(hasher, digest, from, p)
    decreases MAX_COUNTER + 1 - from
  {
    if from <= MAX_COUNTER {
      AttemptGives(hasher, digest, from, p);
      AttemptGivesNothing(hasher, digest, from);
      if Attempt(hasher, digest, from).None? {
        FirstGivesFrom(hasher, digest, from + 1, p);
        FirstGivesLater(hasher, digest, from, p);
      } else if Gives(hasher, digest, from, p) {
        assert FirstGives(hasher, digest, from, from, p);
      }
    }
  }

  lemma FirstGivesLater(hasher: Hasher, digest: Bytes32, from: nat, p: G1)
    requires GivesNothing(hasher, digest, from)
    ensures SomeFirstGives(hasher, digest, from, p) <==> SomeFirstGives(hasher, digest, from + 1, p)
  {
    if SomeFirstGives(hasher, digest, from, p) {
      var n :| FirstGives(hasher, digest, from, n, p);
      assert n != from;
      assert FirstGives(hasher, digest, from + 1, n, p);
    }
    if SomeFirstGives(hasher, digest, from + 1, p) {
      var n :| FirstGives(hasher, digest, from + 1, n, p);
      assert FirstGives(hasher, digest, from, n, p);
    }
  }

  /** Hashing returns a point iff it is the one the least counter up to 254 gives
      whose hash lies below five moduli and whose residue decompresses. */
  lemma HashIsLeastAccepted(hasher: Hasher, digest: Bytes32, p: G1)
    ensures TryHashToCurve(hasher, digest) == Some(p) <==> exists n :: FirstGives(hasher, digest, 0, n, p)
  {
    FirstGivesFrom(hasher, digest, 0, p);
  }

  /** The suite hashes as the program does: candidates are decompressed like
      any other compressed point. */
  ghost predicate HashesWith(suite: Suite, hash: (Bytes32, nat) -> Bytes32) {
    forall digest: Bytes32 :: suite.hashToCurve(digest) == TryHashToCurve(Hasher(hash, suite.decompressG1), digest)
  }

  /** Any hash function may serve any lawful suite. */
  lemma HashingSuite(suite: Suite, hash: (Bytes32, nat) -> Bytes32)
    requires suite.Lawful()
    ensures exists other: Suite :: other.Lawful() && HashesWith(other, hash)
                                   && other.decompressG1 == suite.decompressG1 && other.popDigest == suite.popDigest
  {
    var decompress := suite.decompressG1;
    var other := suite.(hashToCurve := (d: Bytes32) => TryHashToCurve(Hasher(hash, decompress), d));
    assert other.Lawful() && HashesWith(other, hash);
  }

  /** The hash of one digest that every check and every signer works with: the
      point the least good counter gives, or an error iff none of the 255 gives
      one. */
  lemma CheckedHash(suite: Suite, hash: (Bytes32, nat) -> Bytes32, digest: Bytes32, q: G2, sigma: G1, key: G1,
                    secret: Scalar, signature: G1)
    requires HashesWith(suite, hash)
    ensures var hasher := Hasher(hash, suite.decompressG1);
            && (Sign(suite, secret, digest) == Some(signature) <==>
                exists p: G1, n :: FirstGives(hasher, digest, 0, n, p) && signature == Mul(p, secret))
            && (VerifyAggregatedSignature(suite, q, sigma, digest, key) == Err(HashToCurveError) <==>
                forall p: G1, n :: !FirstGives(hasher, digest, 0, n, p))
  {
    var hasher := Hasher(hash, suite.decompressG1);
    forall p: G1 ensures suite.hashToCurve(digest) == Some(p) <==> exists n :: FirstGives(hasher, digest, 0, n, p) {
      HashIsLeastAccepted(hasher, digest, p);
    }
  }

  function Preimages(x: nat): set<nat> {
    set v: nat | v < NORMALIZE_MODULUS && v % MODULUS == x
  }

  /** The rejection bound is the last multiple of the modulus below 2^256, so
      the accepted hashes fall on every residue equally: five on each. */
  lemma ResiduesAreUniform(x: nat)
    requires x < MODULUS
    ensures NORMALIZE_MODULUS == 5 * MODULUS && NORMALIZE_MODULUS <= TWO_256 < NORMALIZE_MODULUS + MODULUS
    ensures Preimages(x) == {x, x + MODULUS, x + 2 * MODULUS, x + 3 * MODULUS, x + 4 * MODULUS}
    ensures |Preimages(x)| == 5
  {
    forall v: nat ensures v in Preimages(x) <==>
      v in {x, x + MODULUS, x + 2 * MODULUS, x + 3 * MODULUS, x + 4 * MODULUS}
    {
      PreimageForm(x, v);
    }
    var five := {x, x + MODULUS, x + 2 * MODULUS, x + 3 * MODULUS, x + 4 * MODULUS};
    assert Preimages(x) == five;
    assert |five| == 5;
  }

  lemma PreimageForm(x: nat, v: nat)
    requires x < MODULUS
    ensures v < NORMALIZE_MODULUS && v % MODULUS == x <==>
            v == x || v == x + MODULUS || v == x + 2 * MODULUS || v == x + 3 * MODULUS || v == x + 4 * MODULUS
  {}

  /** Only reduced x-coordinates are ever tried. */
  lemma CandidatesAreReduced(value: nat, x: Bytes32)
    requires CandidateAt(value, x)
    ensures FromBe(x) < MODULUS
  {}

  /** And each of them for exactly five hash values, all of which 32 bytes take. */
  lemma CandidatesAreUniform(x: Bytes32)
    requires FromBe(x) < MODULUS
    ensures |Preimages(FromBe(x))| == 5
    ensures forall value: nat :: value in Preimages(FromBe(x)) <==> CandidateAt(value, x)
    ensures forall value :: value in Preimages(FromBe(x)) ==> value < TWO_256
  {
    ResiduesAreUniform(FromBe(x));
  }

  // ----- a lawful suite -----

  function SampleG2(q: G2): Bytes64 {
    match q
    case Subgroup(x) => Zeros(32) + Padded32(x)
    case OffSubgroup => seq(64, _ => 255)
  }

  function SampleDecodeG1(b: Bytes32): Option<G1> {
    if FromBe(b) < R then Some(FromBe(b)) else None
  }

  function SampleDecodeG2(b: Bytes64): Option<G2> {
    if FromBe(b[32..]) < R then Some(Subgroup(FromBe(b[32..]))) else Some(OffSubgroup)
  }

  /** The laws asked of a suite are consistent, also where every digest can be
      hashed. */
  lemma LawfulSuiteExists() returns (suite: Suite)
    ensures suite.Lawful() && forall digest: Bytes32 :: suite.hashToCurve(digest).Some?
  {
    var one: G1 := 1;
    suite := Suite(
      (b: Bytes32) => SampleDecodeG1(b),
      (p: G1) => Padded32(p),
      (b: Bytes64) => SampleDecodeG2(b),
      (q: G2) => SampleG2(q),
      (d: Bytes32) => Some(one),
      (d: Bytes32, a: G1, q: G2, s: G1) => one,
      (s: RawG1, k: G1, q: G2, h: G1) => one,
      (o: Pubkey, k: Bytes32) => k);
    forall x: Scalar ensures suite.decompressG2(suite.compressG2(Subgroup(x))) == Some(Subgroup(x)) {
      assert (Zeros(32) + Padded32(x))[32..] == Padded32(x);
    }
    assert suite.compressG1(0) == ZERO32;
  }
}
