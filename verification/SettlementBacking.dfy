/**
 Who certifies what is settled: every settle is checked against the accounts of
 the NCN its caller names, in the state that NCN's own run has reached.
 */
module SettlementBacking {
  import opened Prelude
  import opened NcnErrors
  import opened ScalarField
  import opened Sums
  import opened Bls
  import opened SnapshotAccount
  import opened NcnProgram
  import opened NcnInvariants
  import opened NcnRuns
  import opened HonestOperators
  import opened Certificate
  import opened CertificateTheorems
  import opened KeyProofs
  import opened StakeDecay
  import opened Payload
  import opened Settlement
  import opened SettlementRuns

  // ----- the run of one NCN inside a run of the world -----

  /** What one operation is to an NCN. */
  function CallOf(c: Cluster, op: Op, ncn: Pubkey): seq<Instruction> {
    if ncn !in c.ncns then []
    else
      match op
      case AdvanceClock(slots) => [Tick(slots)]
      case NcnInstruction(n, call) => if n == ncn then [call] else []
      case _ => []
  }

  /** The program an NCN has run so far: it starts as the clock stands when the
      NCN is opened. */
  function ProgramOf(chain: Chain, ops: seq<Op>, ncn: Pubkey): seq<Instruction> {
    if ops == [] then []
    else
      var earlier, op := ops[..|ops| - 1], ops[|ops| - 1];
      var c := Play(chain, earlier).world.cluster;
      if op.OpenNcn? && op.ncn == ncn && ncn !in c.ncns then [Tick(c.clock)]
      else ProgramOf(chain, earlier, ncn) + CallOf(c, op, ncn)
  }

  /** The account is where its NCN's program leads, and its clock is the clock. */
  ghost predicate NcnOk(chain: Chain, c: Cluster, ncn: Pubkey, program: seq<Instruction>) {
    ncn in c.ncns ==>
      c.ncns[ncn].state == Run(chain.SuiteFor(ncn), program) && c.ncns[ncn].state.clock == c.clock
  }

  lemma TickStep(suite: Suite, st: NcnState, slots: U64)
    requires Sound(st)
    ensures Step(suite, st, Tick(slots)) == if st.clock + slots > U64_MAX then st else st.(clock := st.clock + slots)
  {}

  lemma StepKeepsClock(suite: Suite, st: NcnState, ins: Instruction)
    requires Sound(st) && !ins.Tick?
    ensures Step(suite, st, ins).clock == st.clock
  {}

  lemma ClockStep(chain: Chain, c: Cluster, slots: U64, ncn: Pubkey, program: seq<Instruction>)
    requires ncn in c.ncns && NcnOk(chain, c, ncn, program)
    ensures var r := ClockAdvanced(chain, c, slots);
            var after := if r.Ok? then r.value else c;
            ncn in after.ncns && NcnOk(chain, after, ncn, program + [Tick(slots)])
  {
    RunAppend(chain.SuiteFor(ncn), program, Tick(slots));
    TickStep(chain.SuiteFor(ncn), c.ncns[ncn].state, slots);
  }

  lemma CallStep(chain: Chain, c: Cluster, call: NcnCall, ncn: Pubkey, program: seq<Instruction>)
    requires ncn in c.ncns && NcnOk(chain, c, ncn, program)
    ensures var r := NcnStepped(chain, c, ncn, call);
            var after := if r.Ok? then r.value else c;
            ncn in after.ncns && NcnOk(chain, after, ncn, program + [call])
  {
    RunAppend(chain.SuiteFor(ncn), program, call);
    StepKeepsClock(chain.SuiteFor(ncn), c.ncns[ncn].state, call);
  }

  lemma ClusterStep(chain: Chain, h: History, op: Op, ncn: Pubkey, program: seq<Instruction>)
    requires ncn in h.world.cluster.ncns && NcnOk(chain, h.world.cluster, ncn, program)
    ensures ncn in Advance(chain, h, op).world.cluster.ncns
    ensures NcnOk(chain, Advance(chain, h, op).world.cluster, ncn, program + CallOf(h.world.cluster, op, ncn))
  {
    if op.AdvanceClock? {
      ClockStep(chain, h.world.cluster, op.slots, ncn, program);
    } else if op.NcnInstruction? && op.ncn == ncn {
      CallStep(chain, h.world.cluster, op.call, ncn, program);
    } else {
      assert program + [] == program;
      OtherNcnUntouched(chain, h, op, ncn);
    }
  }

  lemma OtherNcnUntouched(chain: Chain, h: History, op: Op, ncn: Pubkey)
    requires ncn in h.world.cluster.ncns && !op.AdvanceClock? && !(op.NcnInstruction? && op.ncn == ncn)
    ensures var c, after := h.world.cluster, Advance(chain, h, op).world.cluster;
            ncn in after.ncns && after.clock == c.clock && after.ncns[ncn].state == c.ncns[ncn].state
  {
    if op.Settle? && Perform(chain, h.world, op).Ok? {
      SettleEffect(chain, h.world, op);
    }
  }

  lemma NcnOpens(chain: Chain, h: History, op: Op, ncn: Pubkey)
    requires ncn !in h.world.cluster.ncns && ncn in Advance(chain, h, op).world.cluster.ncns
    ensures op.OpenNcn? && op.ncn == ncn
    ensures NcnOk(chain, Advance(chain, h, op).world.cluster, ncn, [Tick(h.world.cluster.clock)])
  {
    if op.Settle? && Perform(chain, h.world, op).Ok? {
      SettleEffect(chain, h.world, op);
    }
    var clock := h.world.cluster.clock;
    assert [] + [Tick(clock)] == [Tick(clock)];
    RunAppend(chain.SuiteFor(ncn), [], Tick(clock));
  }

  /** In every run every NCN is in the state its own program reaches. */
  lemma {:induction false} PlayNcn(chain: Chain, ops: seq<Op>, ncn: Pubkey)
    ensures NcnOk(chain, Play(chain, ops).world.cluster, ncn, ProgramOf(chain, ops, ncn))
  {
    if ops != [] {
      var earlier, op := ops[..|ops| - 1], ops[|ops| - 1];
      var h := Play(chain, earlier);
      PlayNcn(chain, earlier, ncn);
      if ncn in h.world.cluster.ncns {
        ClusterStep(chain, h, op, ncn, ProgramOf(chain, earlier, ncn));
      } else if ncn in Advance(chain, h, op).world.cluster.ncns {
        NcnOpens(chain, h, op, ncn);
      }
    }
  }

  // ----- what stands behind a settled payload -----

  /** The certificate's signers hold the share of what the cranks of the NCN's
      program add up to that the NCN has configured, the snapshot is as fresh as
      configured and of the certificate's generation, and the aggregate is signed
      under the key. */
  ghost predicate BackedBy(suite: Suite, program: seq<Instruction>, account: NcnAccount, epochLength: U64, clock: U64,
                           cert: Certificate, key: G1) {
    && epochLength > 0 && Run(suite, program).snapshot.Some?
    && var v, counted := Run(suite, program).snapshot.value, CountedStakes(suite, program, clock, epochLength);
    && Total(counted) > 0
    && Total(Signed(counted, cert.bitmap)) * 10_000 >= Total(counted) * account.consensusThresholdBps
    && v.generation == cert.expectedGeneration
    && 0 <= clock - v.lastSnapshotSlot <= account.validSlotsAfterConsensus
    && SignedUnder(suite, cert, key)
  }

  /** An NCN whose program registered in index order and never rotated a removed
      sole operator. */
  predicate Orderly(suite: Suite, program: seq<Instruction>) {
    InIndexOrder(suite, program) && !EverRotatedTombstone(suite, program)
  }

  lemma OrderlyState(suite: Suite, program: seq<Instruction>)
    requires suite.Lawful() && Orderly(suite, program) && Run(suite, program).snapshot.Some?
    ensures ApkAgrees(suite, Run(suite, program).snapshot.value) && Dense(Run(suite, program).snapshot.value)
  {
    ApkAgreement(suite, program);
    RunDense(suite, program);
  }

  lemma VerdictIsBacking(chain: Chain, c: Cluster, ncn: Pubkey, epochLength: U64, cert: Certificate, program: seq<Instruction>)
    requires Prime(R) && chain.suite.Lawful()
    requires NcnOk(chain, c, ncn, program) && NcnVerdict(chain, c, ncn, epochLength, cert).Ok?
    ensures ncn in c.ncns && c.ncns[ncn].state.snapshot.Some?
    ensures var suite, v := chain.SuiteFor(ncn), c.ncns[ncn].state.snapshot.value;
            var signers := KeySum(SignerPoints(suite, v, cert.bitmap), |v.slots|);
            && BackedBy(suite, program, c.ncns[ncn], epochLength, c.clock, cert, Add(signers, Excess(suite, v)))
            && (Orderly(suite, program) ==> BackedBy(suite, program, c.ncns[ncn], epochLength, c.clock, cert, signers))
  {
    var suite, v, account := chain.SuiteFor(ncn), c.ncns[ncn].state.snapshot.value, c.ncns[ncn];
    var config := VerifyConfig(account.consensusThresholdBps, account.validSlotsAfterConsensus, epochLength);
    VerifyAcceptsIff(suite, v, config, c.clock, cert);
    AcceptedQuorumOfCranks(suite, program, config, c.clock, cert);
    AcceptedIsSigned(suite, v, config, c.clock, cert);
    if Orderly(suite, program) {
      OrderlyState(suite, program);
    }
  }

  /** Every settled payload was certified, over its own digest and at the moment
      it settled, by the quorum its caller's NCN had configured, counted over the
      cranks of that NCN's own program; signed under the key sum of the operators
      its bitmap names if that program was orderly, and in general under that sum
      plus the snapshot's excess. */
  lemma SettledPayloadIsBacked(chain: Chain, ops: seq<Op>, i: nat) returns (k: nat)
    requires Prime(R) && chain.suite.Lawful() && i < |Play(chain, ops).log|
    ensures k < |ops| && ops[k] == Play(chain, ops).log[i] && ops[k].Settle?
    ensures var op, c := ops[k], Play(chain, ops[..k]).world.cluster;
            && op.ncn in c.ncns
            && c.ncns[op.ncn].state == Run(chain.SuiteFor(op.ncn), ProgramOf(chain, ops[..k], op.ncn))
            && c.ncns[op.ncn].state.snapshot.Some?
    ensures var op, c := ops[k], Play(chain, ops[..k]).world.cluster;
            var suite, program, v := chain.SuiteFor(op.ncn), ProgramOf(chain, ops[..k], op.ncn), c.ncns[op.ncn].state.snapshot.value;
            var cert := Certificate(chain.sha256(EncodePayload(op.payload)), op.proof.aggregatedG2, op.proof.aggregatedSignature,
                                    op.proof.bitmap, op.proof.expectedGeneration);
            var signers := KeySum(SignerPoints(suite, v, cert.bitmap), |v.slots|);
            && BackedBy(suite, program, c.ncns[op.ncn], op.epochLength, c.clock, cert, Add(signers, Excess(suite, v)))
            && (Orderly(suite, program) ==> BackedBy(suite, program, c.ncns[op.ncn], op.epochLength, c.clock, cert, signers))
  {
    k := LoggedAt(chain, ops, i);
    var op, w := ops[k], Play(chain, ops[..k]).world;
    SettleEffect(chain, w, op);
    PlayNcn(chain, ops[..k], op.ncn);
    VerdictIsBacking(chain, w.cluster, op.ncn, op.epochLength, SettleCertificate(chain, EncodePayload(op.payload), op.proof),
                     ProgramOf(chain, ops[..k], op.ncn));
  }

  /** An NCN that is not there, or whose snapshot has not grown to its full size,
      certifies nothing. */
  lemma UnreadyNcnRefused(chain: Chain, c: Cluster, ncn: Pubkey, epochLength: U64, cert: Certificate)
    ensures ncn !in c.ncns ==> NcnVerdict(chain, c, ncn, epochLength, cert) == Err(AccountNotFound)
    ensures ncn in c.ncns && c.ncns[ncn].state.snapshot.None? ==>
              NcnVerdict(chain, c, ncn, epochLength, cert) == Err(SnapshotNotInitialized)
  {}

  // ----- keys -----

  /** Possession was proved to this NCN: the signed digest names it. */
  predicate ProvedToNcn(chain: Chain, ncn: Pubkey, ins: Instruction)
    requires ins.RegisterOperator? || ins.UpdateOperatorKeys?
  {
    var digest := chain.popDigest(ncn, ins.operator, ins.g1Key);
    && chain.suite.decompressG1(ins.g1Key).Some? && chain.suite.hashToCurve(digest).Some?
    && var secret, h := chain.suite.decompressG1(ins.g1Key).value, chain.suite.hashToCurve(digest).value;
    && chain.suite.decompressG2(ins.g2Key) == Some(Subgroup(secret))
    && ins.signature == OnCurve((h * secret) % R)
  }

  lemma ProvedMeansToNcn(chain: Chain, ncn: Pubkey, ins: Instruction)
    requires ins.RegisterOperator? || ins.UpdateOperatorKeys?
    ensures ProvedKey(chain.SuiteFor(ncn), ins.operator, ins.g1Key, ins.g2Key, ins.signature) <==> ProvedToNcn(chain, ncn, ins)
  {}

  /** In every run of the world each live key of each NCN was proved to that NCN
      when it was brought, but for a lucky challenge at registration. */
  lemma NcnKeysAreProved(chain: Chain, ops: seq<Op>, ncn: Pubkey, i: nat) returns (k: nat)
    requires Prime(R) && i < MAX_OPERATORS
    requires var c := Play(chain, ops).world.cluster;
             ncn in c.ncns && c.ncns[ncn].state.snapshot.Some? && c.ncns[ncn].state.snapshot.value.slots[i].IsLive()
    ensures var program, op := ProgramOf(chain, ops, ncn), Play(chain, ops).world.cluster.ncns[ncn].state.snapshot.value.slots[i];
            && k < |program|
            && BringsKey(chain.SuiteFor(ncn), Run(chain.SuiteFor(ncn), program[..k]), program[k], op.operator, op.g1Pubkey)
            && (ProvedToNcn(chain, ncn, program[k])
                || (program[k].RegisterOperator?
                    && LuckyChallenge(chain.SuiteFor(ncn), op.operator, op.g1Pubkey, program[k].g2Key, program[k].signature)))
  {
    PlayNcn(chain, ops, ncn);
    k := LiveKeysAreProved(chain.SuiteFor(ncn), ProgramOf(chain, ops, ncn), i);
    ProvedMeansToNcn(chain, ncn, ProgramOf(chain, ops, ncn)[k]);
  }

  // ----- the configuration -----

  /** Threshold and window as the run last set them for the NCN. */
  function LastParameters(chain: Chain, ops: seq<Op>, ncn: Pubkey): (U16, U64) {
    if ops == [] then (0, 0)
    else
      var earlier, op := ops[..|ops| - 1], ops[|ops| - 1];
      var open := ncn in Play(chain, earlier).world.cluster.ncns;
      if (op.OpenNcn? && op.ncn == ncn && !open) || (op.SetNcnParameters? && op.ncn == ncn && open)
      then (op.thresholdBps, op.validSlots)
      else LastParameters(chain, earlier, ncn)
  }

  ghost predicate ParametersOk(c: Cluster, ncn: Pubkey, parameters: (U16, U64)) {
    ncn in c.ncns ==>
      c.ncns[ncn].consensusThresholdBps == parameters.0 && c.ncns[ncn].validSlotsAfterConsensus == parameters.1
  }

  lemma ParametersStep(chain: Chain, h: History, op: Op, ncn: Pubkey, parameters: (U16, U64))
    requires ParametersOk(h.world.cluster, ncn, parameters)
    ensures var open := ncn in h.world.cluster.ncns;
            ParametersOk(Advance(chain, h, op).world.cluster, ncn,
                         if (op.OpenNcn? && op.ncn == ncn && !open) || (op.SetNcnParameters? && op.ncn == ncn && open)
                         then (op.thresholdBps, op.validSlots) else parameters)
  {
    if op.Settle? && Perform(chain, h.world, op).Ok? {
      SettleEffect(chain, h.world, op);
    }
  }

  /** In every run an NCN's configuration is the one last set for it. */
  lemma {:induction false} ParametersAreLastSet(chain: Chain, ops: seq<Op>, ncn: Pubkey)
    ensures ParametersOk(Play(chain, ops).world.cluster, ncn, LastParameters(chain, ops, ncn))
  {
    if ops != [] {
      var earlier := ops[..|ops| - 1];
      ParametersAreLastSet(chain, earlier, ncn);
      ParametersStep(chain, Play(chain, earlier), ops[|ops| - 1], ncn, LastParameters(chain, earlier, ncn));
    }
  }

  // ----- and whose quorum it was -----

  /** The NCN recorded in the settlement state accepts the certificate. */
  predicate OwnNcnCertifies(chain: Chain, w: World, op: Op)
    requires op.Settle? && op.state in w.states
  {
    NcnVerdict(chain, w.cluster, w.states[op.state].ncn, op.epochLength,
               SettleCertificate(chain, EncodePayload(op.payload), op.proof)).Ok?
  }

  lemma {:induction false} ValidationIgnoresCluster(chain: Chain, w: World, c: Cluster, state: Pubkey, index: U64,
                                                    updates: seq<StateUpdate>, buffer: Option<Pubkey>, n: nat)
    requires n <= |updates|
    ensures ValidatedPrefix(chain, w.(cluster := c), state, index, updates, buffer, n)
         == ValidatedPrefix(chain, w, state, index, updates, buffer, n)
  {
    if n > 0 {
      ValidationIgnoresCluster(chain, w, c, state, index, updates, buffer, n - 1);
    }
  }

  /** A settle depends on no NCN but the one passed in. */
  lemma SettleReadsOneNcn(chain: Chain, w: World, c: Cluster, op: Op)
    requires op.Settle? && Perform(chain, w, op).Ok?
    requires c.clock == w.cluster.clock && op.ncn in c.ncns && op.ncn in w.cluster.ncns
    requires c.ncns[op.ncn] == w.cluster.ncns[op.ncn]
    ensures Perform(chain, w.(cluster := c), op).Ok?
  {
    ValidationIgnoresCluster(chain, w, c, op.state, op.payload.transitionIndex, op.payload.updates, op.buffer,
                             |op.payload.updates|);
  }

  /** The program compares the NCN passed in with nothing. Whatever the NCN
      accounts hold, a settle that goes through is certified by the state's own
      NCN, iff that is the NCN passed in: a comparison the caller can make. */
  lemma OwnNcnCertifiesIff(chain: Chain, w: World, op: Op)
    requires op.Settle? && Perform(chain, w, op).Ok?
    ensures op.state in w.states
    ensures (forall c: Cluster :: Perform(chain, w.(cluster := c), op).Ok? ==> OwnNcnCertifies(chain, w.(cluster := c), op))
       <==> op.ncn == w.states[op.state].ncn
  {
    SettleEffect(chain, w, op);
    var own := w.states[op.state].ncn;
    if op.ncn == own {
      forall c: Cluster | Perform(chain, w.(cluster := c), op).Ok? ensures OwnNcnCertifies(chain, w.(cluster := c), op) {
        SettleEffect(chain, w.(cluster := c), op);
      }
    } else {
      var without := Cluster(w.cluster.clock, w.cluster.ncns - {own});
      SettleReadsOneNcn(chain, w, without, op);
      assert !OwnNcnCertifies(chain, w.(cluster := without), op);
    }
  }
}
