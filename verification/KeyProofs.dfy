/**
 Nobody gets a key into the operator set without proving possession of its secret:
 what a successful registration or rotation has checked, and that every live key of
 every run went through one of the two.
 */
module KeyProofs {
  import opened Prelude
  import opened NcnErrors
  import opened ScalarField
  import opened Bls
  import opened SnapshotAccount
  import opened NcnProgram

  /** The G2 key is the G1 key's secret times the generator, and the signature is
      that secret's over the operator and its G1 key. */
  predicate ProvedKey(suite: Suite, operator: Pubkey, g1Key: Bytes32, g2Key: Bytes64, signature: RawG1) {
    && suite.decompressG1(g1Key).Some? && suite.hashToCurve(suite.popDigest(operator, g1Key)).Some?
    && var secret, h := suite.decompressG1(g1Key).value, suite.hashToCurve(suite.popDigest(operator, g1Key)).value;
    && suite.decompressG2(g2Key) == Some(Subgroup(secret))
    && signature == OnCurve((h * secret) % R)
  }

  /** Or the registration challenge is the one value at which keys or a signature
      that do not fit pass. */
  ghost predicate LuckyChallenge(suite: Suite, operator: Pubkey, g1Key: Bytes32, g2Key: Bytes64, signature: RawG1) {
    && suite.decompressG1(g1Key).Some? && suite.hashToCurve(suite.popDigest(operator, g1Key)).Some?
    && suite.decompressG2(g2Key).Some? && suite.decompressG2(g2Key).value.Subgroup? && signature.OnCurve?
    && var key, h := suite.decompressG1(g1Key).value, suite.hashToCurve(suite.popDigest(operator, g1Key)).value;
    && var q := suite.decompressG2(g2Key).value;
    && forall alpha: Scalar ::
         Discrepancy(h, signature.point, key, q.log, alpha) % R == 0 <==> alpha == suite.popGamma(signature, key, q, h)
  }

  lemma LuckyIsLucky(h: G1, sigma: G1, x1: Scalar, x2: Scalar, gamma: Scalar)
    requires forall alpha: Scalar :: CombinedCheck(h, OnCurve(sigma), x1, Subgroup(x2), alpha).Ok? <==> alpha == gamma
    ensures forall alpha: Scalar :: Discrepancy(h, sigma, x1, x2, alpha) % R == 0 <==> alpha == gamma
  {
    forall alpha: Scalar ensures Discrepancy(h, sigma, x1, x2, alpha) % R == 0 <==> alpha == gamma {
      CombinedIsDiscrepancy(h, sigma, x1, x2, alpha);
    }
  }

  /** A registration that succeeds has proved its key. */
  lemma RegistrationProvesKey(suite: Suite, st: NcnState, ins: Instruction)
    requires Prime(R) && Sound(st) && ins.RegisterOperator? && Execute(suite, st, ins).Ok?
    ensures ProvedKey(suite, ins.operator, ins.g1Key, ins.g2Key, ins.signature)
         || LuckyChallenge(suite, ins.operator, ins.g1Key, ins.g2Key, ins.signature)
  {
    assert CheckRegistrationKeys(suite, ins.operator, ins.g1Key, ins.g2Key, ins.signature).Ok?;
    CheckedRegistration(suite, ins.operator, ins.g1Key, ins.g2Key, ins.signature);
  }

  lemma CheckedRegistration(suite: Suite, operator: Pubkey, g1Key: Bytes32, g2Key: Bytes64, signature: RawG1)
    requires Prime(R) && CheckRegistrationKeys(suite, operator, g1Key, g2Key, signature).Ok?
    ensures ProvedKey(suite, operator, g1Key, g2Key, signature) || LuckyChallenge(suite, operator, g1Key, g2Key, signature)
  {
    var q, digest := suite.decompressG2(g2Key).value, suite.popDigest(operator, g1Key);
    RegistrationSoundness(suite, q, signature, g1Key, digest);
    var key, h := suite.decompressG1(g1Key).value, suite.hashToCurve(digest).value;
    if !(q.log == key && signature.point == Mul(h, key)) {
      LuckyIsLucky(h, signature.point, key, q.log, suite.popGamma(signature, key, q, h));
    }
  }

  /** Whoever holds the secret passes, so the checks are exact but for luck. */
  lemma ProvedKeyPasses(suite: Suite, operator: Pubkey, g1Key: Bytes32, g2Key: Bytes64, signature: RawG1)
    requires ProvedKey(suite, operator, g1Key, g2Key, signature)
    ensures CheckRegistrationKeys(suite, operator, g1Key, g2Key, signature).Ok?
  {
    var secret, h := suite.decompressG1(g1Key).value, suite.hashToCurve(suite.popDigest(operator, g1Key)).value;
    CombinedComplete(h, secret, suite.popGamma(signature, secret, Subgroup(secret), h));
  }

  /** A rotation is held to the exact equations, and to a nonzero secret. */
  lemma RotationChecksIff(suite: Suite, operator: Pubkey, g1Key: Bytes32, g2Key: Bytes64, signature: RawG1)
    ensures CheckRotationKeys(suite, operator, g1Key, g2Key, signature).Ok? <==>
            ProvedKey(suite, operator, g1Key, g2Key, signature) && suite.decompressG1(g1Key) != Some(0)
  {
    if suite.decompressG1(g1Key).Some? && suite.decompressG2(g2Key).Some? {
      RotationChecksMeaning(suite, suite.decompressG1(g1Key).value, suite.decompressG2(g2Key).value, signature,
                            suite.popDigest(operator, g1Key));
    }
  }

  /** A rotation that succeeds has proved its key. */
  lemma RotationProvesKey(suite: Suite, st: NcnState, ins: Instruction)
    requires Sound(st) && ins.UpdateOperatorKeys? && Execute(suite, st, ins).Ok?
    ensures ProvedKey(suite, ins.operator, ins.g1Key, ins.g2Key, ins.signature) && suite.decompressG1(ins.g1Key) != Some(0)
  {
    RotationChecksIff(suite, ins.operator, ins.g1Key, ins.g2Key, ins.signature);
  }

  /** Which error: an undecodable G2 key is told apart, all else is one. */
  lemma RegistrationKeyErrors(suite: Suite, operator: Pubkey, g1Key: Bytes32, g2Key: Bytes64, signature: RawG1)
    ensures var r := CheckRegistrationKeys(suite, operator, g1Key, g2Key, signature);
            if suite.decompressG2(g2Key).None? then r == Err(G2PointDecompressionError)
            else r.Ok? || r == Err(BlsVerificationError)
  {}

  lemma RotationKeyErrors(suite: Suite, operator: Pubkey, g1Key: Bytes32, g2Key: Bytes64, signature: RawG1)
    ensures var r := CheckRotationKeys(suite, operator, g1Key, g2Key, signature);
            if suite.decompressG1(g1Key).None? then r == Err(G1PointDecompressionError)
            else if suite.decompressG2(g2Key).None? then r == Err(G2PointDecompressionError)
            else r.Ok? || r == Err(BlsVerificationError)
  {}

  // ----- every live key of a run -----

  predicate BringsKey(suite: Suite, st: NcnState, ins: Instruction, operator: Pubkey, g1Key: Bytes32)
    requires Sound(st)
  {
    && (ins.RegisterOperator? || ins.UpdateOperatorKeys?)
    && Execute(suite, st, ins).Ok? && ins.operator == operator && ins.g1Key == g1Key
  }

  /** A live operator's key was there before, or this step brought it. */
  lemma StepBringsKey(suite: Suite, st: NcnState, ins: Instruction, i: nat)
    requires Sound(st) && i < MAX_OPERATORS
    requires Step(suite, st, ins).snapshot.Some? && Step(suite, st, ins).snapshot.value.slots[i].IsLive()
    ensures var op := Step(suite, st, ins).snapshot.value.slots[i];
            || BringsKey(suite, st, ins, op.operator, op.g1Pubkey)
            || (st.snapshot.Some? && st.snapshot.value.slots[i].IsLive()
                && st.snapshot.value.slots[i].operator == op.operator && st.snapshot.value.slots[i].g1Pubkey == op.g1Pubkey)
  {
    if ins.UpdateOperatorKeys? && Execute(suite, st, ins).Ok? {
      KeyRotatedSlots(suite, st.snapshot.value, ins.g1Key, ins.operator);
    }
  }

  /** Every live key of a run was brought by a step of it, and proved there. */
  lemma {:induction false} LiveKeysAreProved(suite: Suite, program: seq<Instruction>, i: nat) returns (k: nat)
    requires Prime(R) && i < MAX_OPERATORS
    requires Run(suite, program).snapshot.Some? && Run(suite, program).snapshot.value.slots[i].IsLive()
    ensures k < |program|
    ensures var op := Run(suite, program).snapshot.value.slots[i];
            BringsKey(suite, Run(suite, program[..k]), program[k], op.operator, op.g1Pubkey)
    ensures var ins := program[k];
            || ProvedKey(suite, ins.operator, ins.g1Key, ins.g2Key, ins.signature)
            || (ins.RegisterOperator? && LuckyChallenge(suite, ins.operator, ins.g1Key, ins.g2Key, ins.signature))
  {
    var n := |program| - 1;
    StepBringsKey(suite, Run(suite, program[..n]), program[n], i);
    var op := Run(suite, program).snapshot.value.slots[i];
    if BringsKey(suite, Run(suite, program[..n]), program[n], op.operator, op.g1Pubkey) {
      k := n;
      BroughtKeyIsProved(suite, Run(suite, program[..n]), program[n]);
    } else {
      k := LiveKeysAreProved(suite, program[..n], i);
      assert program[..n][..k] == program[..k];
    }
  }

  lemma BroughtKeyIsProved(suite: Suite, st: NcnState, ins: Instruction)
    requires Prime(R) && Sound(st) && (ins.RegisterOperator? || ins.UpdateOperatorKeys?) && Execute(suite, st, ins).Ok?
    ensures || ProvedKey(suite, ins.operator, ins.g1Key, ins.g2Key, ins.signature)
            || (ins.RegisterOperator? && LuckyChallenge(suite, ins.operator, ins.g1Key, ins.g2Key, ins.signature))
  {
    if ins.RegisterOperator? {
      RegistrationProvesKey(suite, st, ins);
    } else {
      RotationProvesKey(suite, st, ins);
    }
  }
}
