/** What certificate verification guarantees in the states the program reaches. */
module CertificateTheorems {
  import opened Prelude
  import opened NcnErrors
  import opened ScalarField
  import opened Sums
  import opened Bls
  import opened Bitmap
  import opened Operator
  import opened SnapshotAccount
  import opened NcnProgram
  import opened NcnInvariants
  import opened NcnRuns
  import opened NcnOutcomes
  import opened Certificate

  // ----- the key the pairing runs against -----

  /** Live operators whose bit is set or whose index the loop never visits. */
  function CoveredPoints(suite: Suite, v: SnapshotView, bitmap: seq<bv8>): seq<G1> {
    seq(|v.slots|, i requires 0 <= i < |v.slots| =>
      if v.slots[i].IsLive() && (i >= Window(v) || BitAt(bitmap, i)) then KeyPoint(suite, v.slots[i].g1Pubkey) else 0)
  }

  function SignerPoints(suite: Suite, v: SnapshotView, bitmap: seq<bv8>): seq<G1> {
    seq(|v.slots|, i requires 0 <= i < |v.slots| =>
      if i < Window(v) && v.slots[i].IsLive() && BitAt(bitmap, i) then KeyPoint(suite, v.slots[i].g1Pubkey) else 0)
  }

  /** Every live index is below the registration count. */
  ghost predicate Dense(v: SnapshotView) {
    forall i :: 0 <= i < |v.slots| && v.slots[i].IsLive() ==> i < v.operatorsRegistered
  }

  /** The subtraction leaves the sum of the covered keys, off by the drift of
      the cached aggregate. */
  lemma Apk1IsCoveredSumPlusDrift(suite: Suite, v: SnapshotView, bitmap: seq<bv8>)
    ensures Apk1(suite, v, bitmap) ==
            Add(KeySum(CoveredPoints(suite, v, bitmap), |v.slots|), Drift(suite, v))
  {
    var n, window := |v.slots|, Window(v);
    var nonSigners := NonSignerPoints(suite, v.slots, bitmap);
    var visited := seq(n, i requires 0 <= i < n => if i < window then nonSigners[i] else 0);
    KeySumZeroTail(visited, window, n);
    KeySumPrefix(visited, nonSigners, window);
    var covered := CoveredPoints(suite, v, bitmap);
    forall i | 0 <= i < n ensures LivePoints(suite, v.slots)[i] == Add(covered[i], visited[i]) {
      AddLaws(covered[i], 0, 0);
      AddLaws(0, visited[i], 0);
    }
    KeySumAdds(covered, visited, LivePoints(suite, v.slots), n);
    RegroupDrift(KeyPoint(suite, v.apk), KeySum(covered, n), KeySum(visited, n));
  }

  lemma RegroupDrift(p: G1, c: G1, m: G1)
    ensures Sub(p, m) == Add(c, Sub(p, Add(c, m)))
  {}

  /** Keys of live operators whose index the loop never visits. */
  function UnvisitedPoints(suite: Suite, v: SnapshotView): seq<G1> {
    seq(|v.slots|, i requires 0 <= i < |v.slots| =>
      if v.slots[i].IsLive() && i >= Window(v) then KeyPoint(suite, v.slots[i].g1Pubkey) else 0)
  }

  /** What a snapshot adds to the signers' key, whoever signs: the keys the
      loop never visits and the drift of the cached aggregate. */
  function Excess(suite: Suite, v: SnapshotView): G1 {
    Add(KeySum(UnvisitedPoints(suite, v), |v.slots|), Drift(suite, v))
  }

  /** In every state the pairing runs against the signers' sum plus the
      snapshot's excess. */
  lemma Apk1IsSignersPlusExcess(suite: Suite, v: SnapshotView, bitmap: seq<bv8>)
    ensures Apk1(suite, v, bitmap) == Add(KeySum(SignerPoints(suite, v, bitmap), |v.slots|), Excess(suite, v))
  {
    var n := |v.slots|;
    var signers, unvisited, covered := SignerPoints(suite, v, bitmap), UnvisitedPoints(suite, v), CoveredPoints(suite, v, bitmap);
    forall i | 0 <= i < n ensures covered[i] == Add(signers[i], unvisited[i]) {
      AddLaws(signers[i], 0, 0);
      AddLaws(0, unvisited[i], 0);
    }
    KeySumAdds(signers, unvisited, covered, n);
    Apk1IsCoveredSumPlusDrift(suite, v, bitmap);
    AddLaws(KeySum(signers, n), KeySum(unvisited, n), Drift(suite, v));
  }

  /** An agreeing, dense state has no excess. */
  lemma NoExcess(suite: Suite, v: SnapshotView)
    requires ApkAgrees(suite, v) && Dense(v)
    ensures Excess(suite, v) == 0
  {
    KeySumOfZeros(UnvisitedPoints(suite, v), |v.slots|);
    DriftMeasuresAgreement(suite, v);
  }

  /** In an agreeing state the pairing runs against exactly the covered keys,
      which in a dense one are the signers'. */
  lemma Apk1IsSignerSum(suite: Suite, v: SnapshotView, bitmap: seq<bv8>)
    requires ApkAgrees(suite, v)
    ensures Apk1(suite, v, bitmap) == KeySum(CoveredPoints(suite, v, bitmap), |v.slots|)
    ensures Dense(v) ==> Apk1(suite, v, bitmap) == KeySum(SignerPoints(suite, v, bitmap), |v.slots|)
  {
    Apk1IsCoveredSumPlusDrift(suite, v, bitmap);
    DriftMeasuresAgreement(suite, v);
    AddLaws(KeySum(CoveredPoints(suite, v, bitmap), |v.slots|), 0, 0);
    if Dense(v) {
      assert CoveredPoints(suite, v, bitmap) == SignerPoints(suite, v, bitmap);
    }
  }

  /** The aggregate key is `key` and the aggregate signature is the hash times
      it, or the challenge is the one value at which a wrong aggregate passes. */
  ghost predicate SignedUnder(suite: Suite, cert: Certificate, key: G1) {
    && suite.decompressG2(cert.aggregatedG2).Some? && suite.decompressG1(cert.aggregatedSignature).Some?
    && suite.hashToCurve(cert.digest).Some?
    && var q, sigma := suite.decompressG2(cert.aggregatedG2).value, suite.decompressG1(cert.aggregatedSignature).value;
    && var h := suite.hashToCurve(cert.digest).value;
    && q.Subgroup?
    && ((q.log == key && sigma == Mul(h, key))
        || forall alpha: Scalar ::
             CombinedCheck(h, OnCurve(sigma), key, q, alpha).Ok? <==>
             alpha == suite.certificateGamma(cert.digest, key, q, sigma))
  }

  /** Soundness, with a prime group order: whatever is accepted is signed under
      the sum of the named operators' keys plus the snapshot's excess, which is
      that sum itself in an agreeing, dense state. */
  lemma AcceptedIsSigned(suite: Suite, v: SnapshotView, config: VerifyConfig, currentSlot: U64, cert: Certificate)
    requires Prime(R)
    requires VerifyResult(suite, v, config, currentSlot, cert).Ok?
    ensures var signers := KeySum(SignerPoints(suite, v, cert.bitmap), |v.slots|);
            && SignedUnder(suite, cert, Add(signers, Excess(suite, v)))
            && (ApkAgrees(suite, v) && Dense(v) ==> SignedUnder(suite, cert, signers))
  {
    VerifyAcceptsIff(suite, v, config, currentSlot, cert);
    Apk1IsSignersPlusExcess(suite, v, cert.bitmap);
    AggregateSoundness(suite, suite.decompressG2(cert.aggregatedG2).value, suite.decompressG1(cert.aggregatedSignature).value,
                       cert.digest, Apk1(suite, v, cert.bitmap));
    if ApkAgrees(suite, v) && Dense(v) {
      Apk1IsSignerSum(suite, v, cert.bitmap);
    }
  }

  /** A registration keeps the set dense iff its index is at most the count. */
  lemma StepDense(suite: Suite, st: NcnState, ins: Instruction)
    requires Sound(st) && st.snapshot.Some? && Dense(st.snapshot.value)
    ensures Step(suite, st, ins).snapshot.Some?
    ensures Dense(Step(suite, st, ins).snapshot.value) <==>
            (ins.RegisterOperator? && Execute(suite, st, ins).Ok? ==>
               ins.index <= st.snapshot.value.operatorsRegistered)
  {
    if ins.RegisterOperator? && Execute(suite, st, ins).Ok? {
      var v, w := st.snapshot.value, Step(suite, st, ins).snapshot.value;
      assert w.slots[ins.index].IsLive();
    }
  }

  /** Every successful registration takes an index no larger than the count. */
  predicate InIndexOrder(suite: Suite, program: seq<Instruction>) {
    program == [] ||
    var before, ins := program[..|program| - 1], program[|program| - 1];
    var st := Run(suite, before);
    && InIndexOrder(suite, before)
    && (ins.RegisterOperator? && Execute(suite, st, ins).Ok? && st.snapshot.Some? ==>
          ins.index <= st.snapshot.value.operatorsRegistered)
  }

  lemma IndexOrderExtends(suite: Suite, program: seq<Instruction>, j: nat)
    requires 0 < j <= |program|
    ensures var st, ins := Run(suite, program[..j - 1]), program[j - 1];
            InIndexOrder(suite, program[..j]) <==>
            && InIndexOrder(suite, program[..j - 1])
            && (ins.RegisterOperator? && Execute(suite, st, ins).Ok? && st.snapshot.Some? ==>
                  ins.index <= st.snapshot.value.operatorsRegistered)
  {
    assert program[..j][..j - 1] == program[..j - 1];
  }

  /** Density at one moment of a run. */
  ghost predicate DenseAt(suite: Suite, program: seq<Instruction>, k: nat)
    requires k <= |program|
  {
    Run(suite, program[..k]).snapshot.Some? ==> Dense(Run(suite, program[..k]).snapshot.value)
  }

  ghost predicate DenseUpTo(suite: Suite, program: seq<Instruction>, j: nat)
    requires j <= |program|
  {
    forall k :: 0 <= k <= j ==> DenseAt(suite, program, k)
  }

  lemma DenseStepIff(suite: Suite, program: seq<Instruction>, j: nat)
    requires 0 < j <= |program| && DenseAt(suite, program, j - 1)
    ensures var st, ins := Run(suite, program[..j - 1]), program[j - 1];
            DenseAt(suite, program, j) <==>
            (ins.RegisterOperator? && Execute(suite, st, ins).Ok? && st.snapshot.Some? ==>
               ins.index <= st.snapshot.value.operatorsRegistered)
  {
    RunExtends(suite, program, j);
    var st := Run(suite, program[..j - 1]);
    if st.snapshot.Some? {
      StepDense(suite, st, program[j - 1]);
    }
  }

  /** The state is dense at every moment up to j iff the run up to there
      registers in index order. */
  lemma {:induction false} RunDenseIff(suite: Suite, program: seq<Instruction>, j: nat)
    requires j <= |program|
    ensures InIndexOrder(suite, program[..j]) <==> DenseUpTo(suite, program, j)
  {
    if j == 0 {
      assert program[..0] == [];
    } else {
      RunDenseIff(suite, program, j - 1);
      IndexOrderExtends(suite, program, j);
      if DenseUpTo(suite, program, j - 1) {
        assert DenseAt(suite, program, j - 1);
        DenseStepIff(suite, program, j);
      }
      assert DenseUpTo(suite, program, j) <==> DenseUpTo(suite, program, j - 1) && DenseAt(suite, program, j);
    }
  }

  lemma RunDense(suite: Suite, program: seq<Instruction>)
    requires InIndexOrder(suite, program)
    ensures Run(suite, program).snapshot.Some? ==> Dense(Run(suite, program).snapshot.value)
  {
    RunDenseIff(suite, program, |program|);
    assert program[..|program|] == program;
    assert DenseAt(suite, program, |program|);
  }

  // ----- stale certificates -----

  /** A certificate accepted at one moment of a run is refused, under any
      configuration and at any time, at every moment after a successful
      registration, rotation or removal. */
  lemma StaleCertificateRefused(suite: Suite, program: seq<Instruction>, i: nat, k: nat, j: nat, cert: Certificate,
                                config: VerifyConfig, currentSlot: U64, laterConfig: VerifyConfig, laterSlot: U64)
    requires i <= k < j <= |program| && Run(suite, program[..i]).snapshot.Some?
    requires VerifyResult(suite, Run(suite, program[..i]).snapshot.value, config, currentSlot, cert).Ok?
    requires ChangesOperatorSet(program[k]) && Execute(suite, Run(suite, program[..k]), program[k]).Ok?
    ensures Run(suite, program[..j]).snapshot.Some?
    ensures var r := VerifyResult(suite, Run(suite, program[..j]).snapshot.value, laterConfig, laterSlot, cert);
            r == Err(SnapshotGenerationMismatch) || r == Err(InvalidInputLength)
  {
    GenerationMovesOn(suite, program, i, k, j);
  }

  /** The signed stake reaches the threshold share of a positive total. */
  ghost predicate QuorumMet(v: SnapshotView, config: VerifyConfig, currentSlot: U64, bitmap: seq<bv8>)
    requires config.epochLength > 0
  {
    var epoch := EpochOf(currentSlot, config.epochLength);
    && TotalStake(v, epoch, config.epochLength) > 0
    && SignedStake(v, bitmap, epoch, config.epochLength) * MAX_BPS
       >= TotalStake(v, epoch, config.epochLength) * config.consensusThresholdBps
  }

  // ----- quorum intersection -----

  /** Stake signed by both. */
  function BothStakes(slots: seq<OperatorSnapshot>, a: seq<bv8>, b: seq<bv8>, epoch: nat, epochLength: nat): seq<nat>
    requires epochLength > 0
  {
    seq(|slots|, i requires 0 <= i < |slots| =>
      if slots[i].IsLive() && BitAt(a, i) && BitAt(b, i) then EffectiveStake(slots[i], epoch, epochLength) else 0)
  }

  lemma {:induction false} InclusionExclusion(slots: seq<OperatorSnapshot>, a: seq<bv8>, b: seq<bv8>,
                                              epoch: nat, epochLength: nat, n: nat)
    requires epochLength > 0 && n <= |slots|
    ensures NatSum(SignedStakes(slots, a, epoch, epochLength), n) + NatSum(SignedStakes(slots, b, epoch, epochLength), n)
         <= NatSum(Stakes(slots, epoch, epochLength), n) + NatSum(BothStakes(slots, a, b, epoch, epochLength), n)
  {
    if n > 0 {
      InclusionExclusion(slots, a, b, epoch, epochLength, n - 1);
    }
  }

  /** Two certificates accepted against one snapshot, threshold and epoch share
      at least twice the threshold minus one of the total stake; above one half
      they share a signer with stake. */
  lemma QuorumIntersection(suite: Suite, v: SnapshotView, config: VerifyConfig,
                           slotA: U64, certA: Certificate, slotB: U64, certB: Certificate)
    requires VerifyResult(suite, v, config, slotA, certA).Ok? && VerifyResult(suite, v, config, slotB, certB).Ok?
    requires EpochOf(slotA, config.epochLength) == EpochOf(slotB, config.epochLength)
    ensures var epoch := EpochOf(slotA, config.epochLength);
            var both := NatSum(BothStakes(v.slots, certA.bitmap, certB.bitmap, epoch, config.epochLength), Window(v));
            MAX_BPS * both >= (2 * config.consensusThresholdBps - MAX_BPS) * TotalStake(v, epoch, config.epochLength)
    ensures 2 * config.consensusThresholdBps > MAX_BPS ==>
              exists i :: 0 <= i < Window(v) && v.slots[i].IsLive()
                && BitAt(certA.bitmap, i) && BitAt(certB.bitmap, i)
                && EffectiveStake(v.slots[i], EpochOf(slotA, config.epochLength), config.epochLength) > 0
  {
    VerifyAcceptsIff(suite, v, config, slotA, certA);
    VerifyAcceptsIff(suite, v, config, slotB, certB);
    var epoch, window := EpochOf(slotA, config.epochLength), Window(v);
    InclusionExclusion(v.slots, certA.bitmap, certB.bitmap, epoch, config.epochLength, window);
    var boths := BothStakes(v.slots, certA.bitmap, certB.bitmap, epoch, config.epochLength);
    var both, total := NatSum(boths, window), TotalStake(v, epoch, config.epochLength);
    IntersectionArithmetic(SignedStake(v, certA.bitmap, epoch, config.epochLength),
                           SignedStake(v, certB.bitmap, epoch, config.epochLength),
                           both, total, config.consensusThresholdBps);
    if 2 * config.consensusThresholdBps > MAX_BPS {
      var i := PositiveTerm(boths, window);
    }
  }

  lemma IntersectionArithmetic(signedA: nat, signedB: nat, both: nat, total: nat, threshold: nat)
    requires signedA * MAX_BPS >= total * threshold && signedB * MAX_BPS >= total * threshold
    requires signedA + signedB <= total + both
    ensures MAX_BPS * both >= (2 * threshold - MAX_BPS) * total
    ensures 2 * threshold > MAX_BPS && total > 0 ==> both > 0
  {
    assert (2 * threshold - MAX_BPS) * total == 2 * (total * threshold) - MAX_BPS * total;
    if 2 * threshold > MAX_BPS && total > 0 {
      assert (2 * threshold - MAX_BPS) * total >= total;
    }
  }

  // ----- reachable states -----

  /** The facts about one live slot that verification relies on. */
  ghost predicate LiveFacts(suite: Suite, op: OperatorSnapshot, v: SnapshotView) {
    op.IsLive() ==>
      && suite.decompressG1(op.g1Pubkey).Some?
      && op.lastSnapshotSlot <= v.lastSnapshotSlot
      && op.nextEpochStakeWeight <= op.stakeWeight <= MAX_VAULTS * U64_MAX
      && (op.hasMinimumStake ==> op.stakeWeight >= v.minimumStake)
      && (op.hasMinimumStakeNextEpoch ==> op.nextEpochStakeWeight >= v.minimumStake)
  }

  ghost predicate AllLiveFacts(suite: Suite, v: SnapshotView) {
    forall i :: 0 <= i < |v.slots| ==> LiveFacts(suite, v.slots[i], v)
  }

  lemma SlotFacts(suite: Suite, op: OperatorSnapshot, v: SnapshotView, accounts: map<Pubkey, OperatorAccount>)
    requires SlotOk(suite, op, v, accounts)
    ensures LiveFacts(suite, op, v)
  {
    if op.IsLive() {
      TotalsInRange(op.vaultContributions);
    }
  }

  lemma ReachableFacts(suite: Suite, st: NcnState)
    requires suite.Lawful() && Reachable(suite, st) && st.snapshot.Some?
    ensures var v := st.snapshot.value;
            && AllLiveFacts(suite, v) && |v.slots| == MAX_OPERATORS && v.lastSnapshotSlot <= st.clock
  {
    ReachableInv(suite, st);
    var v := st.snapshot.value;
    forall i | 0 <= i < |v.slots| ensures LiveFacts(suite, v.slots[i], v) {
      SlotFacts(suite, v.slots[i], v, st.accounts);
    }
  }

  /** 256 operators with 16 vaults of u64 delegation each. */
  const MAX_TOTAL_STAKE: nat := 0xfff_ffff_ffff_ffff_f000

  lemma StakesInRange(suite: Suite, v: SnapshotView, epoch: nat, epochLength: nat)
    requires AllLiveFacts(suite, v) && |v.slots| == MAX_OPERATORS && epochLength > 0
    ensures TotalStake(v, epoch, epochLength) <= MAX_TOTAL_STAKE
  {
    NatSumBound(Stakes(v.slots, epoch, epochLength), Window(v), MAX_VAULTS * U64_MAX);
  }

  lemma EpochMonotone(a: nat, b: nat, length: nat)
    requires a <= b && length > 0
    ensures a / length <= b / length
  {
    var j := a / length - b / length;
    assert j * length == (a / length) * length - (b / length) * length;
    MultipleTooLarge(j, length);
  }

  /** No live operator was snapshotted after the given epoch. */
  ghost predicate NoFutureMarks(slots: seq<OperatorSnapshot>, epoch: nat, epochLength: nat)
    requires epochLength > 0
  {
    forall i :: 0 <= i < |slots| && slots[i].IsLive() ==> EpochOf(slots[i].lastSnapshotSlot, epochLength) <= epoch
  }

  /** The snapshot's own mark dominates every operator's, so one comparison of
      slots rules out every per-operator underflow. */
  lemma MarksDominated(suite: Suite, v: SnapshotView, currentSlot: U64, epochLength: U64)
    requires AllLiveFacts(suite, v) && v.lastSnapshotSlot <= currentSlot && epochLength > 0
    ensures NoFutureMarks(v.slots, EpochOf(currentSlot, epochLength), epochLength)
  {
    forall i | 0 <= i < |v.slots| && v.slots[i].IsLive()
      ensures EpochOf(v.slots[i].lastSnapshotSlot, epochLength) <= EpochOf(currentSlot, epochLength)
    {
      assert LiveFacts(suite, v.slots[i], v);
      EpochMonotone(v.slots[i].lastSnapshotSlot, currentSlot, epochLength);
    }
  }

  predicate IsSignerFault(e: NcnError) {
    e.OperatorIsNotInSnapshot? || e.OperatorSnapshotOutdated? || e.OperatorHasNoMinimumStake?
  }

  lemma ReachableSlotFault(suite: Suite, op: OperatorSnapshot, v: SnapshotView, signed: bool, epoch: U64, epochLength: U64)
    requires LiveFacts(suite, op, v) && epochLength > 0
    requires op.IsLive() ==> EpochOf(op.lastSnapshotSlot, epochLength) <= epoch
    ensures var fault := SlotFault(suite, op, signed, epoch, epochLength);
            fault.Some? ==> IsSignerFault(fault.value)
  {}

  lemma {:induction false} ReachableFaults(suite: Suite, v: SnapshotView, bitmap: seq<bv8>,
                                           epoch: U64, epochLength: U64, n: nat)
    requires AllLiveFacts(suite, v) && |v.slots| == MAX_OPERATORS
    requires epochLength > 0 && NoFutureMarks(v.slots, epoch, epochLength)
    requires n <= Window(v)
    ensures var fault := FirstFault(suite, v.slots, bitmap, epoch, epochLength, n);
            fault.Some? ==> IsSignerFault(fault.value)
  {
    if n > 0 {
      ReachableFaults(suite, v, bitmap, epoch, epochLength, n - 1);
      StakesInRange(suite, v, epoch, epochLength);
      NatSumPrefixesGrow(Stakes(v.slots, epoch, epochLength), n, Window(v));
      ReachableSlotFault(suite, v.slots[n - 1], v, BitAt(bitmap, n - 1), epoch, epochLength);
    }
  }

  lemma ProductBound(a: nat, b: nat, c: nat, d: nat)
    requires a <= c && b <= d
    ensures a * b <= c * d
  {
    assert a * b <= a * d <= c * d;
  }

  lemma ScaledInRange(signed: nat, total: nat, threshold: nat)
    requires signed <= total <= MAX_TOTAL_STAKE && threshold <= U16_MAX
    ensures QuorumResult(signed, total, threshold) != Err(ArithmeticOverflow)
  {
    ProductBound(total, threshold, MAX_TOTAL_STAKE, U16_MAX);
  }

  lemma QuorumErrors(signed: nat, total: nat, threshold: nat)
    ensures var r := QuorumResult(signed, total, threshold);
            r.Err? ==> r.error in {ArithmeticOverflow, InsufficientStakeBps}
  {}

  lemma NoArithmeticErrorsInView(suite: Suite, v: SnapshotView, config: VerifyConfig, currentSlot: U64, cert: Certificate)
    requires AllLiveFacts(suite, v) && |v.slots| == MAX_OPERATORS
    ensures var r := VerifyResult(suite, v, config, currentSlot, cert);
            && r != Err(ArithmeticOverflow)
            && (r == Err(ArithmeticUnderflow) ==> currentSlot < v.lastSnapshotSlot)
  {
    if PreludeResult(v, config, currentSlot, cert).Ok? {
      var epoch := EpochOf(currentSlot, config.epochLength);
      MarksDominated(suite, v, currentSlot, config.epochLength);
      ReachableFaults(suite, v, cert.bitmap, epoch, config.epochLength, Window(v));
      StakesInRange(suite, v, epoch, config.epochLength);
      SignedAtMostTotal(v.slots, cert.bitmap, epoch, config.epochLength, Window(v));
      var signed, total := SignedStake(v, cert.bitmap, epoch, config.epochLength), TotalStake(v, epoch, config.epochLength);
      ScaledInRange(signed, total, config.consensusThresholdBps);
      QuorumErrors(signed, total, config.consensusThresholdBps);
    }
  }

  /** In every reachable state verification never overflows, and it underflows
      only on the first freshness subtraction, which a clock that has not moved
      backwards rules out. */
  lemma NoArithmeticErrors(suite: Suite, st: NcnState, config: VerifyConfig, currentSlot: U64, cert: Certificate)
    requires suite.Lawful() && Reachable(suite, st) && st.snapshot.Some?
    ensures var v := st.snapshot.value;
            var r := VerifyResult(suite, v, config, currentSlot, cert);
            && r != Err(ArithmeticOverflow)
            && (r == Err(ArithmeticUnderflow) ==> currentSlot < v.lastSnapshotSlot)
            && (currentSlot >= st.clock ==> r != Err(ArithmeticUnderflow))
  {
    ReachableFacts(suite, st);
    NoArithmeticErrorsInView(suite, st.snapshot.value, config, currentSlot, cert);
  }

  ghost predicate MeetsFloor(op: OperatorSnapshot, minimumStake: U128, epoch: nat, epochLength: nat)
    requires epochLength > 0
  {
    && op.IsLive()
    && epoch - 1 <= EpochOf(op.lastSnapshotSlot, epochLength) <= epoch
    && EffectiveStake(op, epoch, epochLength) >= minimumStake
    && op.nextEpochStakeWeight <= op.stakeWeight
  }

  /** In every reachable state each signer of an accepted certificate was
      snapshotted in this or the previous epoch and counts at least the
      snapshot's minimum stake; next-epoch stake never exceeds current stake. */
  lemma SignerStakeFloor(suite: Suite, st: NcnState, config: VerifyConfig, currentSlot: U64, cert: Certificate, i: nat)
    requires suite.Lawful() && Reachable(suite, st) && st.snapshot.Some?
    requires VerifyResult(suite, st.snapshot.value, config, currentSlot, cert).Ok?
    requires i < Window(st.snapshot.value) && BitAt(cert.bitmap, i)
    ensures config.epochLength > 0
    ensures var v := st.snapshot.value;
            MeetsFloor(v.slots[i], v.minimumStake, EpochOf(currentSlot, config.epochLength), config.epochLength)
  {
    ReachableFacts(suite, st);
    SignerFloorInView(suite, st.snapshot.value, config, currentSlot, cert, i);
  }

  lemma SignerFloorInView(suite: Suite, v: SnapshotView, config: VerifyConfig, currentSlot: U64, cert: Certificate, i: nat)
    requires AllLiveFacts(suite, v)
    requires VerifyResult(suite, v, config, currentSlot, cert).Ok?
    requires i < Window(v) && BitAt(cert.bitmap, i)
    ensures config.epochLength > 0
    ensures MeetsFloor(v.slots[i], v.minimumStake, EpochOf(currentSlot, config.epochLength), config.epochLength)
  {
    VerifyAcceptsIff(suite, v, config, currentSlot, cert);
    AdmissibleSignerFloor(suite, v.slots[i], v, EpochOf(currentSlot, config.epochLength), config.epochLength);
  }

  lemma AdmissibleSignerFloor(suite: Suite, op: OperatorSnapshot, v: SnapshotView, epoch: nat, epochLength: nat)
    requires epochLength > 0 && LiveFacts(suite, op, v) && SlotAdmissible(suite, op, true, epoch, epochLength)
    ensures MeetsFloor(op, v.minimumStake, epoch, epochLength)
  {}
}
