/**
 Off-chain aggregation (cli/src/bls_keys.rs) and the end-to-end result: what
 honest signers produce, the on-chain verifier accepts.
 */
module Aggregation {
  import opened Prelude
  import opened ScalarField
  import opened Sums
  import opened Bls
  import opened Bitmap
  import opened SnapshotAccount
  import opened NcnProgram
  import opened NcnInvariants
  import opened NcnRuns
  import opened Certificate
  import opened CertificateTheorems

  /** Left-to-right sum of the first n signatures; adding bytes that are not a
      point aborts. */
  function SignatureSum(signatures: seq<RawG1>, n: nat): Option<RawG1>
    requires 1 <= n <= |signatures|
  {
    if n == 1 then Some(signatures[0])
    else
      match SignatureSum(signatures, n - 1)
      case None => None
      case Some(total) =>
        if total.OnCurve? && signatures[n - 1].OnCurve?
        then Some(OnCurve(Add(total.point, signatures[n - 1].point))) else None
  }

  function G2Sum(keys: seq<G2>, n: nat): Option<G2>
    requires 1 <= n <= |keys|
  {
    if n == 1 then Some(keys[0])
    else
      match G2Sum(keys, n - 1)
      case None => None
      case Some(total) =>
        if total.Subgroup? && keys[n - 1].Subgroup?
        then Some(Subgroup(Add(total.log, keys[n - 1].log))) else None
  }

  function Decompressed(suite: Suite, keys: seq<Bytes64>, n: nat): Option<seq<G2>>
    requires n <= |keys|
  {
    if n == 0 then Some([])
    else
      match (Decompressed(suite, keys, n - 1), suite.decompressG2(keys[n - 1]))
      case (Some(points), Some(q)) => Some(points + [q])
      case _ => None
  }

  /** The compressed aggregate signature and G2 key. */
  function Aggregate(suite: Suite, signatures: seq<RawG1>, g2Keys: seq<Bytes64>): Option<(Bytes32, Bytes64)> {
    if |signatures| != |g2Keys| || |signatures| == 0 then None
    else
      match Decompressed(suite, g2Keys, |g2Keys|)
      case None => None
      case Some(points) =>
        if |points| != |g2Keys| then None
        else
          match (SignatureSum(signatures, |signatures|), G2Sum(points, |points|))
          case (Some(OnCurve(sigma)), Some(q)) => Some((suite.compressG1(sigma), suite.compressG2(q)))
          case _ => None
  }

  method AggregateSignaturesAndKeys(suite: Suite, signatures: seq<RawG1>, g2Keys: seq<Bytes64>)
    returns (r: Option<(Bytes32, Bytes64)>)
    ensures r == Aggregate(suite, signatures, g2Keys)
  {
    if |signatures| != |g2Keys| || |signatures| == 0 {
      return None;
    }
    var points: seq<G2> := [];
    for i := 0 to |g2Keys|
      invariant Decompressed(suite, g2Keys, i) == Some(points) && |points| == i
    {
      var q := suite.decompressG2(g2Keys[i]);
      if q.None? {
        DecompressionStops(suite, g2Keys, i + 1, |g2Keys|);
        return None;
      }
      points := points + [q.value];
    }
    var sigma, q := signatures[0], points[0];
    for i := 1 to |signatures|
      invariant SignatureSum(signatures, i) == Some(sigma)
    {
      if sigma.OffCurve? || signatures[i].OffCurve? {
        SignatureSumStops(signatures, i + 1, |signatures|);
        return None;
      }
      sigma := OnCurve(Add(sigma.point, signatures[i].point));
    }
    for i := 1 to |points|
      invariant G2Sum(points, i) == Some(q)
    {
      if q.OffSubgroup? || points[i].OffSubgroup? {
        G2SumStops(points, i + 1, |points|);
        return None;
      }
      q := Subgroup(Add(q.log, points[i].log));
    }
    if sigma.OffCurve? {
      return None;
    }
    r := Some((suite.compressG1(sigma.point), suite.compressG2(q)));
  }

  lemma {:induction false} DecompressionStops(suite: Suite, keys: seq<Bytes64>, m: nat, n: nat)
    requires m <= n <= |keys| && Decompressed(suite, keys, m).None?
    ensures Decompressed(suite, keys, n).None?
  {
    if m < n {
      DecompressionStops(suite, keys, m, n - 1);
    }
  }

  lemma {:induction false} SignatureSumStops(signatures: seq<RawG1>, m: nat, n: nat)
    requires 1 <= m <= n <= |signatures| && SignatureSum(signatures, m).None?
    ensures SignatureSum(signatures, n).None?
  {
    if m < n {
      SignatureSumStops(signatures, m, n - 1);
    }
  }

  lemma {:induction false} G2SumStops(keys: seq<G2>, m: nat, n: nat)
    requires 1 <= m <= n <= |keys| && G2Sum(keys, m).None?
    ensures G2Sum(keys, n).None?
  {
    if m < n {
      G2SumStops(keys, m, n - 1);
    }
  }

  // ----- honest signers -----

  /** The k-th submission is a signature by the k-th secret, with its G2 key. */
  ghost predicate HonestSubmissions(suite: Suite, digest: Bytes32, secrets: seq<Scalar>,
                                    signatures: seq<RawG1>, g2Keys: seq<Bytes64>) {
    && |secrets| == |signatures| == |g2Keys| > 0
    && forall k :: 0 <= k < |secrets| ==>
         && Sign(suite, secrets[k], digest).Some?
         && signatures[k] == OnCurve(Sign(suite, secrets[k], digest).value)
         && suite.decompressG2(g2Keys[k]) == Some(Subgroup(secrets[k]))
  }

  function PublicKeys(secrets: seq<Scalar>): (keys: seq<G2>)
    ensures |keys| == |secrets| && forall k :: 0 <= k < |keys| ==> keys[k] == Subgroup(secrets[k])
  {
    seq(|secrets|, k requires 0 <= k < |secrets| => Subgroup(secrets[k]))
  }

  /** Aggregation is linear: the aggregate of honest submissions is one honest
      signature under the sum of the secrets. */
  lemma HonestAggregate(suite: Suite, digest: Bytes32, secrets: seq<Scalar>, signatures: seq<RawG1>, g2Keys: seq<Bytes64>)
    requires HonestSubmissions(suite, digest, secrets, signatures, g2Keys)
    ensures suite.hashToCurve(digest).Some?
    ensures var x := KeySum(secrets, |secrets|);
            Aggregate(suite, signatures, g2Keys)
              == Some((suite.compressG1(Mul(suite.hashToCurve(digest).value, x)), suite.compressG2(Subgroup(x))))
  {
    assert Sign(suite, secrets[0], digest).Some?;
    var h := suite.hashToCurve(digest).value;
    var points := PublicKeys(secrets);
    var products := seq(|secrets|, k requires 0 <= k < |secrets| => Mul(h, secrets[k]));
    HonestDecompression(suite, digest, secrets, signatures, g2Keys, |secrets|);
    assert points[..|secrets|] == points;
    HonestSums(secrets, products, signatures, points, |secrets|);
    KeySumScales(h, secrets, products, |secrets|);
  }

  lemma {:induction false} HonestDecompression(suite: Suite, digest: Bytes32, secrets: seq<Scalar>,
                                               signatures: seq<RawG1>, g2Keys: seq<Bytes64>, n: nat)
    requires HonestSubmissions(suite, digest, secrets, signatures, g2Keys) && n <= |secrets|
    ensures Decompressed(suite, g2Keys, n) == Some(PublicKeys(secrets)[..n])
  {
    if n > 0 {
      HonestDecompression(suite, digest, secrets, signatures, g2Keys, n - 1);
      assert PublicKeys(secrets)[..n] == PublicKeys(secrets)[..n - 1] + [Subgroup(secrets[n - 1])];
    }
  }

  lemma {:induction false} HonestSums(secrets: seq<Scalar>, products: seq<Scalar>, signatures: seq<RawG1>, points: seq<G2>, n: nat)
    requires |secrets| == |products| == |signatures| == |points| && 1 <= n <= |secrets|
    requires forall k :: 0 <= k < |secrets| ==> signatures[k] == OnCurve(products[k]) && points[k] == Subgroup(secrets[k])
    ensures SignatureSum(signatures, n) == Some(OnCurve(KeySum(products, n)))
    ensures G2Sum(points, n) == Some(Subgroup(KeySum(secrets, n)))
  {
    if n == 1 {
      AddLaws(0, products[0], 0);
      AddLaws(products[0], 0, 0);
      AddLaws(0, secrets[0], 0);
      AddLaws(secrets[0], 0, 0);
      assert KeySum(products, 0) == 0 && KeySum(secrets, 0) == 0;
    } else {
      HonestSums(secrets, products, signatures, points, n - 1);
    }
  }

  // ----- end to end -----

  /** `order` lists, once each, exactly the visited slots that are not in
      `nonSigners`. */
  ghost predicate ListsSigners(v: SnapshotView, nonSigners: seq<nat>, order: seq<nat>) {
    && (forall k, l :: 0 <= k < l < |order| ==> order[k] != order[l])
    && (forall i: nat :: i in order <==> i < Window(v) && i !in nonSigners)
  }

  /** The bitmap is the one `CreateSignerBitmap` builds for the non-signers. */
  ghost predicate BitmapOf(v: SnapshotView, nonSigners: seq<nat>, bitmap: seq<bv8>) {
    && |bitmap| == RequiredBytes(v.operatorsRegistered)
    && forall i: nat :: i < v.operatorsRegistered ==> (BitAt(bitmap, i) <==> i !in nonSigners)
  }

  /** Each signer is live, fresh and above the floor, and holds the secret of
      its recorded key. */
  ghost predicate ReadySigners(suite: Suite, v: SnapshotView, order: seq<nat>, secrets: seq<Scalar>,
                               epoch: nat, epochLength: nat)
    requires epochLength > 0
  {
    && |secrets| == |order|
    && forall k :: 0 <= k < |order| ==>
         && order[k] < |v.slots| && v.slots[order[k]].IsLive()
         && SlotAdmissible(suite, v.slots[order[k]], true, epoch, epochLength)
         && suite.decompressG1(v.slots[order[k]].g1Pubkey) == Some(secrets[k])
  }

  lemma SignerPointsAreMasked(suite: Suite, v: SnapshotView, nonSigners: seq<nat>, bitmap: seq<bv8>, order: seq<nat>,
                              secrets: seq<Scalar>, epoch: nat, epochLength: nat)
    requires epochLength > 0 && ListsSigners(v, nonSigners, order) && BitmapOf(v, nonSigners, bitmap)
    requires ReadySigners(suite, v, order, secrets, epoch, epochLength)
    ensures KeySum(SignerPoints(suite, v, bitmap), |v.slots|) == KeySum(secrets, |secrets|)
  {
    var points := LivePoints(suite, v.slots);
    assert SignerPoints(suite, v, bitmap) == Mask(points, order);
    assert Select(points, order) == secrets;
    SelectionSum(points, order);
  }

  /** Every visited slot passes its own check. */
  lemma AllAdmissible(suite: Suite, v: SnapshotView, nonSigners: seq<nat>, bitmap: seq<bv8>, order: seq<nat>,
                      secrets: seq<Scalar>, epoch: nat, epochLength: nat)
    requires epochLength > 0 && ListsSigners(v, nonSigners, order) && BitmapOf(v, nonSigners, bitmap)
    requires ReadySigners(suite, v, order, secrets, epoch, epochLength)
    requires AllLiveFacts(suite, v) && NoFutureMarks(v.slots, epoch, epochLength)
    ensures forall i :: 0 <= i < Window(v) ==> SlotAdmissible(suite, v.slots[i], BitAt(bitmap, i), epoch, epochLength)
  {
    forall i: nat | i < Window(v) ensures SlotAdmissible(suite, v.slots[i], BitAt(bitmap, i), epoch, epochLength) {
      if i in nonSigners {
        assert LiveFacts(suite, v.slots[i], v);
      } else {
        assert i in order;
        var k :| 0 <= k < |order| && order[k] == i;
      }
    }
  }

  /** A round of honest signing against a snapshot: it is fresh, the listed
      signers are ready, hold enough stake and submit their own signatures. */
  ghost predicate HonestRound(suite: Suite, v: SnapshotView, config: VerifyConfig, currentSlot: U64, digest: Bytes32,
                              nonSigners: seq<nat>, bitmap: seq<bv8>, order: seq<nat>, secrets: seq<Scalar>,
                              signatures: seq<RawG1>, g2Keys: seq<Bytes64>) {
    && config.epochLength > 0
    && v.lastSnapshotSlot <= currentSlot <= v.lastSnapshotSlot + config.validSlotsAfterConsensus
    && BitmapOf(v, nonSigners, bitmap) && ListsSigners(v, nonSigners, order)
    && ReadySigners(suite, v, order, secrets, EpochOf(currentSlot, config.epochLength), config.epochLength)
    && HonestSubmissions(suite, digest, secrets, signatures, g2Keys)
    && QuorumMet(v, config, currentSlot, bitmap)
  }

  /** The certificate made of an aggregate and the current generation. */
  function CertificateOf(v: SnapshotView, digest: Bytes32, bitmap: seq<bv8>, aggregate: (Bytes32, Bytes64)): Certificate {
    Certificate(digest, aggregate.1, aggregate.0, bitmap, v.generation)
  }

  /** An honest round gets as far as the pairing, which checks the signers'
      signature against the key of the snapshot. */
  lemma HonestRoundVerdict(suite: Suite, st: NcnState, config: VerifyConfig, currentSlot: U64, digest: Bytes32,
                           nonSigners: seq<nat>, bitmap: seq<bv8>, order: seq<nat>, secrets: seq<Scalar>,
                           signatures: seq<RawG1>, g2Keys: seq<Bytes64>) returns (h: G1, x: Scalar)
    requires suite.Lawful() && Reachable(suite, st) && st.snapshot.Some?
    requires HonestRound(suite, st.snapshot.value, config, currentSlot, digest, nonSigners, bitmap, order, secrets,
                         signatures, g2Keys)
    ensures suite.hashToCurve(digest) == Some(h)
    ensures Aggregate(suite, signatures, g2Keys)
         == Some((suite.compressG1(Mul(h, x)), suite.compressG2(Subgroup(x))))
    ensures var v := st.snapshot.value;
            && x == KeySum(SignerPoints(suite, v, bitmap), |v.slots|)
            && (VerifyResult(suite, v, config, currentSlot,
                             CertificateOf(v, digest, bitmap, Aggregate(suite, signatures, g2Keys).value)).Ok? <==>
                v.apk != ZERO32
                && CombinedCheck(h, OnCurve(Mul(h, x)), Apk1(suite, v, bitmap), Subgroup(x),
                                 suite.certificateGamma(digest, Apk1(suite, v, bitmap), Subgroup(x), Mul(h, x))).Ok?)
  {
    ReachableFacts(suite, st);
    ReachableInv(suite, st);
    HonestAggregate(suite, digest, secrets, signatures, g2Keys);
    h, x := suite.hashToCurve(digest).value, KeySum(secrets, |secrets|);
    var v, epoch := st.snapshot.value, EpochOf(currentSlot, config.epochLength);
    var cert := CertificateOf(v, digest, bitmap, Aggregate(suite, signatures, g2Keys).value);
    MarksDominated(suite, v, currentSlot, config.epochLength);
    HonestWalk(suite, v, epoch, config, nonSigners, bitmap, order, secrets);
    SignerPointsAreMasked(suite, v, nonSigners, bitmap, order, secrets, epoch, config.epochLength);
    VerifyFromParts(suite, v, config, currentSlot, cert);
    HonestPairing(suite, v, cert, h, x);
  }

  /** End-to-end completeness, exactly. In any reachable state an honest round
      with enough stake, its signers listed in any order, aggregates off chain to
      a certificate; the program accepts it iff the cached aggregate is not the
      identity encoding and the snapshot has no excess, or the challenge happens
      to be zero. */
  lemma HonestCertificateAcceptedIff(suite: Suite, st: NcnState, config: VerifyConfig, currentSlot: U64, digest: Bytes32,
                                     nonSigners: seq<nat>, bitmap: seq<bv8>, order: seq<nat>, secrets: seq<Scalar>,
                                     signatures: seq<RawG1>, g2Keys: seq<Bytes64>)
    requires Prime(R)
    requires suite.Lawful() && Reachable(suite, st) && st.snapshot.Some?
    requires HonestRound(suite, st.snapshot.value, config, currentSlot, digest, nonSigners, bitmap, order, secrets,
                         signatures, g2Keys)
    ensures suite.hashToCurve(digest).Some? && Aggregate(suite, signatures, g2Keys).Some?
    ensures var v, aggregate := st.snapshot.value, Aggregate(suite, signatures, g2Keys).value;
            var x := KeySum(SignerPoints(suite, v, bitmap), |v.slots|);
            VerifyResult(suite, v, config, currentSlot, CertificateOf(v, digest, bitmap, aggregate)).Ok? <==>
            && v.apk != ZERO32
            && (Excess(suite, v) == 0
                || suite.certificateGamma(digest, Add(x, Excess(suite, v)), Subgroup(x),
                                          Mul(suite.hashToCurve(digest).value, x)) == 0)
  {
    var v := st.snapshot.value;
    var h, x := HonestRoundVerdict(suite, st, config, currentSlot, digest, nonSigners, bitmap, order, secrets,
                                   signatures, g2Keys);
    Apk1IsSignersPlusExcess(suite, v, bitmap);
    HonestCombinedIff(h, x, Apk1(suite, v, bitmap),
                      suite.certificateGamma(digest, Apk1(suite, v, bitmap), Subgroup(x), Mul(h, x)));
    AddCancels(x, Excess(suite, v));
  }

  lemma AddCancels(x: Scalar, e: Scalar)
    ensures Add(x, e) == x <==> e == 0
  {}

  /** In a dense state whose aggregate agrees and is not the identity encoding,
      an honest round is always accepted, whatever the group order. */
  lemma HonestCertificateAccepted(suite: Suite, st: NcnState, config: VerifyConfig, currentSlot: U64, digest: Bytes32,
                                  nonSigners: seq<nat>, bitmap: seq<bv8>, order: seq<nat>, secrets: seq<Scalar>,
                                  signatures: seq<RawG1>, g2Keys: seq<Bytes64>)
    requires suite.Lawful() && Reachable(suite, st) && st.snapshot.Some?
    requires Dense(st.snapshot.value) && ApkAgrees(suite, st.snapshot.value) && st.snapshot.value.apk != ZERO32
    requires HonestRound(suite, st.snapshot.value, config, currentSlot, digest, nonSigners, bitmap, order, secrets,
                         signatures, g2Keys)
    ensures var aggregate := Aggregate(suite, signatures, g2Keys);
            && aggregate.Some?
            && VerifyResult(suite, st.snapshot.value, config, currentSlot,
                            CertificateOf(st.snapshot.value, digest, bitmap, aggregate.value)).Ok?
  {
    var v := st.snapshot.value;
    var h, x := HonestRoundVerdict(suite, st, config, currentSlot, digest, nonSigners, bitmap, order, secrets,
                                   signatures, g2Keys);
    Apk1IsSignerSum(suite, v, bitmap);
    CombinedComplete(h, x, suite.certificateGamma(digest, x, Subgroup(x), Mul(h, x)));
  }

  /** The walk finds no fault and the quorum is met. */
  lemma HonestWalk(suite: Suite, v: SnapshotView, epoch: U64, config: VerifyConfig, nonSigners: seq<nat>,
                   bitmap: seq<bv8>, order: seq<nat>, secrets: seq<Scalar>)
    requires config.epochLength > 0 && AllLiveFacts(suite, v) && |v.slots| == MAX_OPERATORS
    requires NoFutureMarks(v.slots, epoch, config.epochLength)
    requires BitmapOf(v, nonSigners, bitmap) && ListsSigners(v, nonSigners, order)
    requires ReadySigners(suite, v, order, secrets, epoch, config.epochLength)
    requires TotalStake(v, epoch, config.epochLength) > 0
    requires SignedStake(v, bitmap, epoch, config.epochLength) * MAX_BPS
             >= TotalStake(v, epoch, config.epochLength) * config.consensusThresholdBps
    ensures FirstFault(suite, v.slots, bitmap, epoch, config.epochLength, Window(v)).None?
    ensures QuorumResult(SignedStake(v, bitmap, epoch, config.epochLength), TotalStake(v, epoch, config.epochLength),
                         config.consensusThresholdBps).Ok?
  {
    AllAdmissible(suite, v, nonSigners, bitmap, order, secrets, epoch, config.epochLength);
    StakesInRange(suite, v, epoch, config.epochLength);
    NoFaultIff(suite, v.slots, bitmap, epoch, config.epochLength, Window(v));
    SignedAtMostTotal(v.slots, bitmap, epoch, config.epochLength, Window(v));
    ScaledInRange(SignedStake(v, bitmap, epoch, config.epochLength), TotalStake(v, epoch, config.epochLength),
                  config.consensusThresholdBps);
  }

  lemma HonestPairing(suite: Suite, v: SnapshotView, cert: Certificate, h: G1, x: Scalar)
    requires suite.Lawful() && suite.decompressG1(v.apk).Some?
    requires suite.hashToCurve(cert.digest) == Some(h)
    requires cert.aggregatedG2 == suite.compressG2(Subgroup(x))
    requires cert.aggregatedSignature == suite.compressG1(Mul(h, x))
    ensures var apk1 := Apk1(suite, v, cert.bitmap);
            PairingResult(suite, v, cert).Ok? <==>
            v.apk != ZERO32
            && CombinedCheck(h, OnCurve(Mul(h, x)), apk1, Subgroup(x),
                             suite.certificateGamma(cert.digest, apk1, Subgroup(x), Mul(h, x))).Ok?
  {}
}
