/**
 Certificate verification (core/src/certificate.rs): one pass over the bitmap
 and the operator slots, ending in one pairing.

 `VerifyResult` is the outcome as a function of the account contents, error
 codes included; `Accepted` is what acceptance means. `VerifyCertificate` is the
 loop.
 */
module Certificate {
  import opened Prelude
  import opened NcnErrors
  import opened ScalarField
  import opened Sums
  import opened Bls
  import opened Bitmap
  import opened Operator
  import opened SnapshotAccount

  const MAX_BPS: nat := 10_000

  datatype VerifyConfig = VerifyConfig(consensusThresholdBps: U16, validSlotsAfterConsensus: U64, epochLength: U64)

  datatype Certificate = Certificate(
    digest: Bytes32,
    aggregatedG2: Bytes64,
    aggregatedSignature: Bytes32,
    bitmap: seq<bv8>,
    expectedGeneration: U64)

  // ----- the parts of the pass -----

  /** Epoch number of a slot (core/src/utils.rs, get_epoch). */
  function EpochOf(slot: nat, length: nat): (epoch: nat)
    requires length > 0
    ensures epoch <= slot
  {
    QuotientAtMost(slot, length);
    slot / length
  }

  lemma QuotientAtMost(slot: nat, length: nat)
    requires length > 0
    ensures slot / length <= slot
  {
    ProductAtLeast(slot / length, length);
  }

  lemma ProductAtLeast(q: nat, length: nat)
    requires length > 0
    ensures q * length >= q
  {
    assert q * length == q * (length - 1) + q;
  }

  /** Number of slots the loop visits. */
  function Window(v: SnapshotView): nat {
    if v.operatorsRegistered < |v.slots| then v.operatorsRegistered else |v.slots|
  }

  /** The stake view decays: this epoch's weight, then next epoch's, then none. */
  function EffectiveStake(op: OperatorSnapshot, epoch: nat, epochLength: nat): U128
    requires epochLength > 0
  {
    var taken := EpochOf(op.lastSnapshotSlot, epochLength);
    if epoch == taken then op.stakeWeight
    else if epoch == taken + 1 then op.nextEpochStakeWeight
    else 0
  }

  function Stakes(slots: seq<OperatorSnapshot>, epoch: nat, epochLength: nat): seq<nat>
    requires epochLength > 0
  {
    seq(|slots|, i requires 0 <= i < |slots| =>
      if slots[i].IsLive() then EffectiveStake(slots[i], epoch, epochLength) else 0)
  }

  function SignedStakes(slots: seq<OperatorSnapshot>, bitmap: seq<bv8>, epoch: nat, epochLength: nat): seq<nat>
    requires epochLength > 0
  {
    seq(|slots|, i requires 0 <= i < |slots| =>
      if slots[i].IsLive() && BitAt(bitmap, i) then EffectiveStake(slots[i], epoch, epochLength) else 0)
  }

  function NonSignerPoints(suite: Suite, slots: seq<OperatorSnapshot>, bitmap: seq<bv8>): seq<G1> {
    seq(|slots|, i requires 0 <= i < |slots| =>
      if slots[i].IsLive() && !BitAt(bitmap, i) then KeyPoint(suite, slots[i].g1Pubkey) else 0)
  }

  function TotalStake(v: SnapshotView, epoch: nat, epochLength: nat): nat
    requires epochLength > 0
  {
    NatSum(Stakes(v.slots, epoch, epochLength), Window(v))
  }

  function SignedStake(v: SnapshotView, bitmap: seq<bv8>, epoch: nat, epochLength: nat): nat
    requires epochLength > 0
  {
    NatSum(SignedStakes(v.slots, bitmap, epoch, epochLength), Window(v))
  }

  /** The key the pairing runs against. */
  function Apk1(suite: Suite, v: SnapshotView, bitmap: seq<bv8>): G1 {
    Sub(KeyPoint(suite, v.apk), KeySum(NonSignerPoints(suite, v.slots, bitmap), Window(v)))
  }

  // ----- the outcome -----

  /** What is wrong with one slot on its own. */
  function SlotFault(suite: Suite, op: OperatorSnapshot, signed: bool, epoch: U64, epochLength: U64): Option<NcnError>
    requires epochLength > 0
  {
    var taken := EpochOf(op.lastSnapshotSlot, epochLength);
    if !op.IsLive() then
      if signed then Some(OperatorIsNotInSnapshot) else None
    else if epoch < taken then
      Some(ArithmeticUnderflow)
    else if signed then
      match HasMinimumStakeNow(op, epoch, taken)
      case Err(e) => Some(e)
      case Ok(enough) => if enough then None else Some(OperatorHasNoMinimumStake)
    else if suite.decompressG1(op.g1Pubkey).None? then
      Some(G1PointDecompressionError)
    else
      None
  }

  function FaultAt(suite: Suite, slots: seq<OperatorSnapshot>, bitmap: seq<bv8>, epoch: U64, epochLength: U64, i: nat)
    : Option<NcnError>
    requires epochLength > 0 && i < |slots|
  {
    var fault := SlotFault(suite, slots[i], BitAt(bitmap, i), epoch, epochLength);
    if fault.Some? then fault
    else if NatSum(Stakes(slots, epoch, epochLength), i + 1) > U128_MAX then Some(ArithmeticOverflow)
    else None
  }

  /** The first fault among the first n slots. */
  function FirstFault(suite: Suite, slots: seq<OperatorSnapshot>, bitmap: seq<bv8>, epoch: U64, epochLength: U64, n: nat)
    : Option<NcnError>
    requires epochLength > 0 && n <= |slots|
  {
    if n == 0 then None
    else
      var earlier := FirstFault(suite, slots, bitmap, epoch, epochLength, n - 1);
      if earlier.Some? then earlier else FaultAt(suite, slots, bitmap, epoch, epochLength, n - 1)
  }

  function QuorumResult(signed: nat, total: nat, thresholdBps: nat): Result<(), NcnError> {
    if total == 0 then Err(InsufficientStakeBps)
    else if signed * MAX_BPS > U128_MAX || total * thresholdBps > U128_MAX then Err(ArithmeticOverflow)
    else if signed * MAX_BPS < total * thresholdBps then Err(InsufficientStakeBps)
    else Ok(())
  }

  function PairingResult(suite: Suite, v: SnapshotView, cert: Certificate): Result<(), NcnError> {
    match suite.decompressG2(cert.aggregatedG2)
    case None => Err(G2PointDecompressionError)
    case Some(q) =>
      if v.apk == ZERO32 then
        Err(NoOperatorsRegistered)
      else if suite.decompressG1(v.apk).None? then
        Err(G1PointDecompressionError)
      else
        match suite.decompressG1(cert.aggregatedSignature)
        case None => Err(G1PointDecompressionError)
        case Some(sigma) =>
          if VerifyAggregatedSignature(suite, q, sigma, cert.digest, Apk1(suite, v, cert.bitmap)).Ok?
          then Ok(()) else Err(SignatureVerificationFailed)
  }

  /** The checks before the loop. */
  function PreludeResult(v: SnapshotView, config: VerifyConfig, currentSlot: U64, cert: Certificate)
    : (r: Result<(), NcnError>)
    ensures r.Ok? ==> config.epochLength > 0
  {
    if |cert.bitmap| != RequiredBytes(v.operatorsRegistered) then Err(InvalidInputLength)
    else if v.generation != cert.expectedGeneration then Err(SnapshotGenerationMismatch)
    else if currentSlot < v.lastSnapshotSlot then Err(ArithmeticUnderflow)
    else if currentSlot - v.lastSnapshotSlot > config.validSlotsAfterConsensus then Err(VotingNotValid)
    else if config.epochLength == 0 then Err(DenominatorIsZero)
    else Ok(())
  }

  function VerifyResult(suite: Suite, v: SnapshotView, config: VerifyConfig, currentSlot: U64, cert: Certificate)
    : Result<(), NcnError>
  {
    var _ :- PreludeResult(v, config, currentSlot, cert);
    var epoch := EpochOf(currentSlot, config.epochLength);
    match FirstFault(suite, v.slots, cert.bitmap, epoch, config.epochLength, Window(v))
    case Some(e) => Err(e)
    case None =>
      var _ :- QuorumResult(SignedStake(v, cert.bitmap, epoch, config.epochLength),
                            TotalStake(v, epoch, config.epochLength), config.consensusThresholdBps);
      PairingResult(suite, v, cert)
  }

  lemma VerifyFromParts(suite: Suite, v: SnapshotView, config: VerifyConfig, currentSlot: U64, cert: Certificate)
    requires PreludeResult(v, config, currentSlot, cert).Ok?
    requires var epoch := EpochOf(currentSlot, config.epochLength);
             && FirstFault(suite, v.slots, cert.bitmap, epoch, config.epochLength, Window(v)).None?
             && QuorumResult(SignedStake(v, cert.bitmap, epoch, config.epochLength),
                             TotalStake(v, epoch, config.epochLength), config.consensusThresholdBps).Ok?
    ensures VerifyResult(suite, v, config, currentSlot, cert) == PairingResult(suite, v, cert)
  {}

  // ----- what acceptance means -----

  /** A slot in the loop window may stand as the bitmap has it. */
  ghost predicate SlotAdmissible(suite: Suite, op: OperatorSnapshot, signed: bool, epoch: nat, epochLength: nat)
    requires epochLength > 0
  {
    var taken := EpochOf(op.lastSnapshotSlot, epochLength);
    if !op.IsLive() then
      !signed
    else
      && taken <= epoch
      && (signed ==> (epoch == taken && op.hasMinimumStake) || (epoch == taken + 1 && op.hasMinimumStakeNextEpoch))
      && (!signed ==> suite.decompressG1(op.g1Pubkey).Some?)
  }

  ghost predicate Accepted(suite: Suite, v: SnapshotView, config: VerifyConfig, currentSlot: U64, cert: Certificate) {
    && |cert.bitmap| == RequiredBytes(v.operatorsRegistered)
    && v.generation == cert.expectedGeneration
    && v.lastSnapshotSlot <= currentSlot <= v.lastSnapshotSlot + config.validSlotsAfterConsensus
    && config.epochLength > 0
    && var epoch := EpochOf(currentSlot, config.epochLength);
    && (forall i :: 0 <= i < Window(v) ==>
          SlotAdmissible(suite, v.slots[i], BitAt(cert.bitmap, i), epoch, config.epochLength))
    && var signed, total := SignedStake(v, cert.bitmap, epoch, config.epochLength), TotalStake(v, epoch, config.epochLength);
    && 0 < total <= U128_MAX
    && total * config.consensusThresholdBps <= signed * MAX_BPS <= U128_MAX
    && v.apk != ZERO32
    && suite.decompressG1(v.apk).Some?
    && suite.decompressG1(cert.aggregatedSignature).Some?
    && suite.decompressG2(cert.aggregatedG2).Some?
    && VerifyAggregatedSignature(suite, suite.decompressG2(cert.aggregatedG2).value,
                                 suite.decompressG1(cert.aggregatedSignature).value,
                                 cert.digest, Apk1(suite, v, cert.bitmap)).Ok?
  }

  lemma {:induction false} NoFaultIff(suite: Suite, slots: seq<OperatorSnapshot>, bitmap: seq<bv8>,
                                      epoch: U64, epochLength: U64, n: nat)
    requires epochLength > 0 && n <= |slots|
    ensures FirstFault(suite, slots, bitmap, epoch, epochLength, n).None? <==>
            && (forall i :: 0 <= i < n ==> SlotAdmissible(suite, slots[i], BitAt(bitmap, i), epoch, epochLength))
            && NatSum(Stakes(slots, epoch, epochLength), n) <= U128_MAX
  {
    if n > 0 {
      NoFaultIff(suite, slots, bitmap, epoch, epochLength, n - 1);
      NatSumPrefixesGrow(Stakes(slots, epoch, epochLength), n - 1, n);
      assert SlotFault(suite, slots[n - 1], BitAt(bitmap, n - 1), epoch, epochLength).None? <==>
        SlotAdmissible(suite, slots[n - 1], BitAt(bitmap, n - 1), epoch, epochLength);
    }
  }

  /** The pass accepts exactly the certificates that meet the declarative
      conditions. */
  lemma VerifyAcceptsIff(suite: Suite, v: SnapshotView, config: VerifyConfig, currentSlot: U64, cert: Certificate)
    ensures VerifyResult(suite, v, config, currentSlot, cert).Ok? <==> Accepted(suite, v, config, currentSlot, cert)
  {
    if PreludeResult(v, config, currentSlot, cert).Ok? {
      NoFaultIff(suite, v.slots, cert.bitmap, EpochOf(currentSlot, config.epochLength), config.epochLength, Window(v));
    }
  }

  // ----- the loop -----

  lemma SignedAtMostTotal(slots: seq<OperatorSnapshot>, bitmap: seq<bv8>, epoch: nat, epochLength: nat, n: nat)
    requires epochLength > 0 && n <= |slots|
    ensures NatSum(SignedStakes(slots, bitmap, epoch, epochLength), n) <= NatSum(Stakes(slots, epoch, epochLength), n)
  {
    NatSumMonotone(SignedStakes(slots, bitmap, epoch, epochLength), Stakes(slots, epoch, epochLength), n);
  }

  lemma {:induction false} FirstFaultStands(suite: Suite, slots: seq<OperatorSnapshot>, bitmap: seq<bv8>,
                                            epoch: U64, epochLength: U64, m: nat, n: nat)
    requires epochLength > 0 && m <= n <= |slots|
    requires FirstFault(suite, slots, bitmap, epoch, epochLength, m).Some?
    ensures FirstFault(suite, slots, bitmap, epoch, epochLength, n)
         == FirstFault(suite, slots, bitmap, epoch, epochLength, m)
  {
    if m < n {
      FirstFaultStands(suite, slots, bitmap, epoch, epochLength, m, n - 1);
    }
  }

  datatype Tally = Tally(nonSigners: Option<G1>, signedStake: U128, totalStake: U128)

  function NonSignerKey(nonSigners: Option<G1>): G1 {
    if nonSigners.Some? then nonSigners.value else 0
  }

  /** The loop body. */
  method VisitOperator(suite: Suite, op: OperatorSnapshot, signed: bool, epoch: U64, epochLength: U64, tally: Tally)
    returns (r: Result<Tally, NcnError>)
    requires epochLength > 0 && tally.signedStake <= tally.totalStake
    ensures var fault := SlotFault(suite, op, signed, epoch, epochLength);
            var stake := if op.IsLive() then EffectiveStake(op, epoch, epochLength) else 0;
            if fault.Some? then r == Err(fault.value)
            else if tally.totalStake + stake > U128_MAX then r == Err(ArithmeticOverflow)
            else
              && r.Ok?
              && r.value.totalStake == tally.totalStake + stake
              && r.value.signedStake == tally.signedStake + (if signed then stake else 0)
              && NonSignerKey(r.value.nonSigners) ==
                 Add(NonSignerKey(tally.nonSigners),
                     if op.IsLive() && !signed then KeyPoint(suite, op.g1Pubkey) else 0)
  {
    AddLaws(NonSignerKey(tally.nonSigners), 0, 0);
    if !op.IsLive() {
      if signed {
        return Err(OperatorIsNotInSnapshot);
      }
      return Ok(tally);
    }
    var taken := EpochOf(op.lastSnapshotSlot, epochLength);
    if epoch < taken {
      return Err(ArithmeticUnderflow);
    }
    var effective := if epoch == taken then op.stakeWeight
                     else if epoch == taken + 1 then op.nextEpochStakeWeight
                     else 0;
    var signedStake, nonSigners := tally.signedStake, tally.nonSigners;
    if signed {
      var enough := HasMinimumStakeNow(op, epoch, taken);
      if enough.Err? {
        return Err(enough.error);
      }
      if !enough.value {
        return Err(OperatorHasNoMinimumStake);
      }
      if signedStake + effective > U128_MAX {
        return Err(ArithmeticOverflow);
      }
      signedStake := signedStake + effective;
    } else {
      var point := suite.decompressG1(op.g1Pubkey);
      if point.None? {
        return Err(G1PointDecompressionError);
      }
      AddLaws(0, point.value, 0);
      AddLaws(point.value, 0, 0);
      nonSigners := Some(if nonSigners.None? then point.value else Add(nonSigners.value, point.value));
    }
    if tally.totalStake + effective > U128_MAX {
      return Err(ArithmeticOverflow);
    }
    r := Ok(Tally(nonSigners, signedStake, tally.totalStake + effective));
  }

  /** The tally after the first n slots, none of which is at fault. */
  ghost predicate TallyOk(suite: Suite, slots: seq<OperatorSnapshot>, bitmap: seq<bv8>, epoch: U64, epochLength: U64,
                          n: nat, tally: Tally)
    requires epochLength > 0 && n <= |slots|
  {
    && FirstFault(suite, slots, bitmap, epoch, epochLength, n).None?
    && tally.signedStake == NatSum(SignedStakes(slots, bitmap, epoch, epochLength), n)
    && tally.totalStake == NatSum(Stakes(slots, epoch, epochLength), n)
    && NonSignerKey(tally.nonSigners) == KeySum(NonSignerPoints(suite, slots, bitmap), n)
  }

  /** What one visit means for the walk. */
  lemma VisitExtendsTally(suite: Suite, slots: seq<OperatorSnapshot>, bitmap: seq<bv8>, epoch: U64, epochLength: U64,
                          i: nat, n: nat, tally: Tally, after: Tally)
    requires epochLength > 0 && i < n <= |slots|
    requires TallyOk(suite, slots, bitmap, epoch, epochLength, i, tally)
    ensures tally.signedStake <= tally.totalStake
    ensures var fault := FaultAt(suite, slots, bitmap, epoch, epochLength, i);
            fault.Some? ==> FirstFault(suite, slots, bitmap, epoch, epochLength, n) == fault
    ensures var op, signed := slots[i], BitAt(bitmap, i);
            var stake := if op.IsLive() then EffectiveStake(op, epoch, epochLength) else 0;
            && FaultAt(suite, slots, bitmap, epoch, epochLength, i).None?
            && after.totalStake == tally.totalStake + stake
            && after.signedStake == tally.signedStake + (if signed then stake else 0)
            && NonSignerKey(after.nonSigners) ==
               Add(NonSignerKey(tally.nonSigners), if op.IsLive() && !signed then KeyPoint(suite, op.g1Pubkey) else 0)
            ==> TallyOk(suite, slots, bitmap, epoch, epochLength, i + 1, after)
  {
    SignedAtMostTotal(slots, bitmap, epoch, epochLength, i);
    if FaultAt(suite, slots, bitmap, epoch, epochLength, i).Some? {
      FirstFaultStands(suite, slots, bitmap, epoch, epochLength, i + 1, n);
    }
  }

  /** The fourth and fifth check: walk the operator set once. */
  method WalkOperators(suite: Suite, snapshot: Snapshot, bitmap: seq<bv8>, epoch: U64, epochLength: U64)
    returns (r: Result<Tally, NcnError>)
    requires snapshot.Valid() && epochLength > 0
    requires |bitmap| == RequiredBytes(snapshot.operatorsRegistered)
    ensures var v := snapshot.View();
            match FirstFault(suite, v.slots, bitmap, epoch, epochLength, Window(v))
            case Some(e) => r == Err(e)
            case None =>
              && r.Ok?
              && r.value.signedStake == SignedStake(v, bitmap, epoch, epochLength)
              && r.value.totalStake == TotalStake(v, epoch, epochLength)
              && NonSignerKey(r.value.nonSigners) == KeySum(NonSignerPoints(suite, v.slots, bitmap), Window(v))
  {
    ghost var slots := snapshot.operatorSnapshots[..];
    var tally := Tally(None, 0, 0);
    var window := if snapshot.operatorsRegistered < MAX_OPERATORS then snapshot.operatorsRegistered else MAX_OPERATORS;
    for i := 0 to window
      invariant TallyOk(suite, slots, bitmap, epoch, epochLength, i, tally)
    {
      VisitExtendsTally(suite, slots, bitmap, epoch, epochLength, i, window, tally, tally);
      var visited := VisitOperator(suite, snapshot.operatorSnapshots[i], Bit(bitmap[i / 8], i % 8), epoch, epochLength, tally);
      if visited.Err? {
        return visited;
      }
      VisitExtendsTally(suite, slots, bitmap, epoch, epochLength, i, window, tally, visited.value);
      tally := visited.value;
    }
    r := Ok(tally);
  }

  method VerifyCertificate(suite: Suite, snapshot: Snapshot, config: VerifyConfig, currentSlot: U64, cert: Certificate)
    returns (r: Result<(), NcnError>)
    requires snapshot.Valid()
    ensures r == VerifyResult(suite, snapshot.View(), config, currentSlot, cert)
  {
    if |cert.bitmap| != RequiredBytes(snapshot.operatorsRegistered) {
      return Err(InvalidInputLength);
    }
    if snapshot.generation != cert.expectedGeneration {
      return Err(SnapshotGenerationMismatch);
    }
    if currentSlot < snapshot.lastSnapshotSlot {
      return Err(ArithmeticUnderflow);
    }
    if currentSlot - snapshot.lastSnapshotSlot > config.validSlotsAfterConsensus {
      return Err(VotingNotValid);
    }
    if config.epochLength == 0 {
      return Err(DenominatorIsZero);
    }
    var epoch := EpochOf(currentSlot, config.epochLength);
    var walked := WalkOperators(suite, snapshot, cert.bitmap, epoch, config.epochLength);
    if walked.Err? {
      return Err(walked.error);
    }
    var tally := walked.value;
    if tally.totalStake == 0 {
      return Err(InsufficientStakeBps);
    }
    var scaledSigned := tally.signedStake * MAX_BPS;
    if scaledSigned > U128_MAX {
      return Err(ArithmeticOverflow);
    }
    var scaledRequired := tally.totalStake * config.consensusThresholdBps;
    if scaledRequired > U128_MAX {
      return Err(ArithmeticOverflow);
    }
    if scaledSigned < scaledRequired {
      return Err(InsufficientStakeBps);
    }
    r := CheckPairing(suite, snapshot, cert, tally.nonSigners);
  }

  method CheckPairing(suite: Suite, snapshot: Snapshot, cert: Certificate, nonSigners: Option<G1>)
    returns (r: Result<(), NcnError>)
    requires KeySum(NonSignerPoints(suite, snapshot.View().slots, cert.bitmap), Window(snapshot.View()))
             == NonSignerKey(nonSigners)
    ensures r == PairingResult(suite, snapshot.View(), cert)
  {
    var q := suite.decompressG2(cert.aggregatedG2);
    if q.None? {
      return Err(G2PointDecompressionError);
    }
    if snapshot.totalAggregatedG1Pubkey == ZERO32 {
      return Err(NoOperatorsRegistered);
    }
    var total := suite.decompressG1(snapshot.totalAggregatedG1Pubkey);
    if total.None? {
      return Err(G1PointDecompressionError);
    }
    var sigma := suite.decompressG1(cert.aggregatedSignature);
    if sigma.None? {
      return Err(G1PointDecompressionError);
    }
    AddLaws(total.value, 0, 0);
    var apk1 := if nonSigners.None? then total.value else Add(total.value, Neg(nonSigners.value));
    var verdict := VerifyAggregatedSignature(suite, q.value, sigma.value, cert.digest, apk1);
    r := if verdict.Ok? then Ok(()) else Err(SignatureVerificationFailed);
  }
}
