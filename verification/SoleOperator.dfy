/**
 The smallest network that certifies: a program that opens a snapshot, lists one
 mint and one vault, registers one operator and cranks its stake. Its operator
 alone is a quorum, so the conditions under which certificates are accepted can
 be met.
 */
module SoleOperator {
  import opened Prelude
  import opened NcnErrors
  import opened ScalarField
  import opened Sums
  import opened Bls
  import opened HashToField
  import opened Bitmap
  import opened Operator
  import opened SnapshotAccount
  import opened VaultRegistry
  import opened NcnProgram
  import opened NcnInvariants
  import opened NcnRuns
  import opened HonestOperators
  import opened Certificate
  import opened CertificateTheorems
  import opened Aggregation

  datatype Setup = Setup(clock: U64, minimumStake: U128, operator: Pubkey, vault: Pubkey, mint: Pubkey,
                         secret: Scalar, stake: U64)
  {
    predicate Usable(suite: Suite) {
      && clock < U64_MAX
      && vault != DEFAULT_PUBKEY && mint != DEFAULT_PUBKEY
      && secret != 0 && Hashable(suite, operator, secret)
      && 0 < stake && minimumStake <= stake
    }
  }

  /** Calls that grow a fresh snapshot account to its full size. */
  const REALLOCS: nat := 19

  function Growth(n: nat, minimumStake: U128): seq<Instruction> {
    seq(n, _ => ReallocSnapshot(minimumStake))
  }

  function Opening(s: Setup): seq<Instruction> {
    [Tick(s.clock)] + Growth(REALLOCS, s.minimumStake)
  }

  function Listing(s: Setup): seq<Instruction> {
    Opening(s) + [RegisterStMint(s.mint, FULL_WEIGHT_BPS)] + [RegisterVault(s.vault, s.mint, 0)]
  }

  function Joining(suite: Suite, s: Setup): seq<Instruction> {
    Listing(s) + [RegisterWith(suite, s.operator, 0, s.secret)]
  }

  function SetupProgram(suite: Suite, s: Setup): seq<Instruction> {
    Joining(suite, s) + [SnapshotDelegation(s.operator, s.vault, true, s.stake, 0)]
  }

  /** What follows the first tick. */
  function SetupCalls(suite: Suite, s: Setup): (calls: seq<Instruction>)
    ensures SetupProgram(suite, s) == [Tick(s.clock)] + calls
    ensures forall i :: 0 <= i < |calls| ==> !calls[i].Tick?
  {
    Growth(REALLOCS, s.minimumStake)
    + [RegisterStMint(s.mint, FULL_WEIGHT_BPS), RegisterVault(s.vault, s.mint, 0),
       RegisterWith(suite, s.operator, 0, s.secret), SnapshotDelegation(s.operator, s.vault, true, s.stake, 0)]
  }

  /** The NCN after n calls. */
  function Growing(clock: U64, minimumStake: U128, n: nat): NcnState {
    if n < REALLOCS then NcnState(clock, (n + 1) * MAX_REALLOC_BYTES, None, EMPTY_REGISTRY, map[])
    else NcnState(clock, SNAPSHOT_SIZE, Some(Initialized(minimumStake)), EMPTY_REGISTRY, map[])
  }

  lemma GrowthStep(suite: Suite, clock: U64, minimumStake: U128, n: nat)
    requires n < REALLOCS
    ensures Sound(Growing(clock, minimumStake, n))
    ensures Step(suite, Growing(clock, minimumStake, n), ReallocSnapshot(minimumStake)) == Growing(clock, minimumStake, n + 1)
  {}

  lemma {:induction false} SnapshotGrows(suite: Suite, clock: U64, minimumStake: U128, n: nat)
    requires n <= REALLOCS
    ensures Run(suite, [Tick(clock)] + Growth(n, minimumStake)) == Growing(clock, minimumStake, n)
  {
    if n == 0 {
      assert [Tick(clock)] + Growth(0, minimumStake) == [] + [Tick(clock)];
      RunAppend(suite, [], Tick(clock));
    } else {
      var before := [Tick(clock)] + Growth(n - 1, minimumStake);
      assert [Tick(clock)] + Growth(n, minimumStake) == before + [ReallocSnapshot(minimumStake)];
      SnapshotGrows(suite, clock, minimumStake, n - 1);
      RunAppend(suite, before, ReallocSnapshot(minimumStake));
      GrowthStep(suite, clock, minimumStake, n - 1);
    }
  }

  /** The registry with the one mint and the one vault. */
  function ListedRegistry(s: Setup): Registry {
    Registry(EmptyMints()[0 := StMintEntry(s.mint, FULL_WEIGHT_BPS)],
             EmptyVaults()[0 := VaultEntry(s.vault, s.mint, 0, s.clock)])
  }

  lemma ListingRuns(suite: Suite, s: Setup)
    requires s.Usable(suite)
    ensures Run(suite, Listing(s)) ==
            NcnState(s.clock, SNAPSHOT_SIZE, Some(Initialized(s.minimumStake)), ListedRegistry(s), map[])
  {
    var withMint := Opening(s) + [RegisterStMint(s.mint, FULL_WEIGHT_BPS)];
    SnapshotGrows(suite, s.clock, s.minimumStake, REALLOCS);
    RunAppend(suite, Opening(s), RegisterStMint(s.mint, FULL_WEIGHT_BPS));
    assert MintIndex(EmptyMints(), s.mint, 0).None?;
    assert MintIndex(EmptyMints(), DEFAULT_PUBKEY, 0) == Some(0);
    RunAppend(suite, withMint, RegisterVault(s.vault, s.mint, 0));
    assert Run(suite, withMint).registry == Registry(EmptyMints()[0 := StMintEntry(s.mint, FULL_WEIGHT_BPS)], EmptyVaults());
    assert !VaultListed(EmptyVaults(), s.vault);
    assert FreeVaultIndex(EmptyVaults(), 0) == Some(0);
  }

  lemma FullWeight(stake: U64)
    ensures ApplyWeight(stake, FULL_WEIGHT_BPS) == Ok(stake)
  {}

  lemma FirstContribution(stake: U64, view: StakeView)
    ensures TotalWeight(NoContributions()[0 := VaultContribution(0, stake, stake)], view) == stake
  {
    var none := ContributionWeights(NoContributions(), view);
    NatSumBound(none, MAX_VAULTS, 0);
    NatSumUpdate(none, 0, stake, MAX_VAULTS);
    assert ContributionWeights(NoContributions()[0 := VaultContribution(0, stake, stake)], view) == none[0 := stake];
  }

  /** The only operator's entry once its stake has been recorded. */
  function StakedOperator(suite: Suite, s: Setup): OperatorSnapshot {
    var op := NewOperator(s.operator, true, 0, suite.compressG1(s.secret));
    op.(vaultContributions := NoContributions()[0 := VaultContribution(0, s.stake, s.stake)],
        stakeWeight := s.stake, nextEpochStakeWeight := s.stake,
        hasMinimumStake := true, hasMinimumStakeNextEpoch := true, lastSnapshotSlot := s.clock)
  }

  lemma CrankRecordsStake(suite: Suite, s: Setup)
    requires s.Usable(suite)
    ensures WeightedDelegation(ListedRegistry(s), s.vault, true, s.stake, 0) == Ok((s.stake, s.stake))
    ensures VaultSlot(ListedRegistry(s), s.vault) == Ok(0)
    ensures DelegationSnapshotted(NewOperator(s.operator, true, 0, suite.compressG1(s.secret)), s.clock, 0, s.stake, s.stake,
                                  s.minimumStake) == Ok(StakedOperator(suite, s))
  {
    FullWeight(s.stake);
    assert VaultSlotFrom(ListedRegistry(s).vaults, s.vault, 0) == Some(0);
    assert MintIndex(ListedRegistry(s).mints, s.mint, 0) == Some(0);
    FirstContribution(s.stake, ThisEpoch);
    FirstContribution(s.stake, NextEpoch);
    assert FirstKeyed(NoContributions(), EMPTY_SLOT, 0) == Some(0);
  }

  lemma RegistrationKeepsRest(suite: Suite, st: NcnState, operator: Pubkey, index: U64, secret: Scalar)
    requires Sound(st)
    ensures var after := Step(suite, st, RegisterWith(suite, operator, index, secret));
            && after.registry == st.registry && after.clock == st.clock
            && (after != st ==> after.snapshot.Some? && after.snapshot.value.lastSnapshotSlot == st.clock
                                && st.snapshot.Some?
                                && after.snapshot.value.minimumStake == st.snapshot.value.minimumStake)
  {}

  /** Programs that neither register nor rotate are orderly. */
  lemma {:induction false} QuietProgram(suite: Suite, program: seq<Instruction>)
    requires forall i :: 0 <= i < |program| ==> !program[i].RegisterOperator? && !program[i].UpdateOperatorKeys?
    ensures InIndexOrder(suite, program) && !EverRotatedTombstone(suite, program)
  {
    if program != [] {
      QuietProgram(suite, program[..|program| - 1]);
    }
  }

  lemma IndexOrderAppend(suite: Suite, program: seq<Instruction>, ins: Instruction)
    requires InIndexOrder(suite, program) && (ins.RegisterOperator? ==> ins.index == 0)
    ensures InIndexOrder(suite, program + [ins])
  {
    assert (program + [ins])[..|program|] == program;
  }

  lemma SetupIsOrderly(suite: Suite, s: Setup)
    ensures InIndexOrder(suite, SetupProgram(suite, s)) && !EverRotatedTombstone(suite, SetupProgram(suite, s))
  {
    var join := RegisterWith(suite, s.operator, 0, s.secret);
    var crank := SnapshotDelegation(s.operator, s.vault, true, s.stake, 0);
    QuietProgram(suite, Listing(s));
    IndexOrderAppend(suite, Listing(s), join);
    IndexOrderAppend(suite, Joining(suite, s), crank);
    RunAppend(suite, Listing(s), join);
    RunAppend(suite, Joining(suite, s), crank);
  }

  lemma JoiningRuns(suite: Suite, s: Setup)
    requires suite.Lawful() && s.Usable(suite)
    ensures var st := Run(suite, Joining(suite, s));
            && st.clock == s.clock && st.registry == ListedRegistry(s)
            && st.snapshot.Some?
            && st.snapshot.value.slots == EmptySlots()[0 := NewOperator(s.operator, true, 0, suite.compressG1(s.secret))]
            && st.snapshot.value.operatorsRegistered == 1
            && st.snapshot.value.minimumStake == s.minimumStake
  {
    RunInvariant(suite, Listing(s));
    ListingRuns(suite, s);
    RunAppend(suite, Listing(s), RegisterWith(suite, s.operator, 0, s.secret));
    FirstRegistration(suite, Run(suite, Listing(s)), s.operator, 0, s.secret);
    RegistrationKeepsRest(suite, Run(suite, Listing(s)), s.operator, 0, s.secret);
  }

  lemma StakeCranked(suite: Suite, s: Setup, st: NcnState)
    requires Sound(st) && s.Usable(suite) && st.clock == s.clock && st.registry == ListedRegistry(s) && st.snapshot.Some?
    requires st.snapshot.value.slots == EmptySlots()[0 := NewOperator(s.operator, true, 0, suite.compressG1(s.secret))]
    requires st.snapshot.value.minimumStake == s.minimumStake
    ensures Step(suite, st, SnapshotDelegation(s.operator, s.vault, true, s.stake, 0))
         == st.(snapshot := Some(st.snapshot.value.(slots := EmptySlots()[0 := StakedOperator(suite, s)],
                                                    lastSnapshotSlot := s.clock)))
  {
    var slots := st.snapshot.value.slots;
    assert FindOperator(slots, s.operator, 0) == Some(0);
    CrankRecordsStake(suite, s);
    assert slots[0 := StakedOperator(suite, s)] == EmptySlots()[0 := StakedOperator(suite, s)];
  }

  /** Where the program ends. */
  lemma SetupRuns(suite: Suite, s: Setup)
    requires suite.Lawful() && s.Usable(suite)
    ensures var st := Run(suite, SetupProgram(suite, s));
            && st.clock == s.clock
            && st.snapshot.Some?
            && st.snapshot.value.slots == EmptySlots()[0 := StakedOperator(suite, s)]
            && st.snapshot.value.operatorsRegistered == 1
            && st.snapshot.value.lastSnapshotSlot == s.clock
    ensures InIndexOrder(suite, SetupProgram(suite, s)) && !EverRotatedTombstone(suite, SetupProgram(suite, s))
  {
    JoiningRuns(suite, s);
    RunAppend(suite, Joining(suite, s), SnapshotDelegation(s.operator, s.vault, true, s.stake, 0));
    StakeCranked(suite, s, Run(suite, Joining(suite, s)));
    SetupIsOrderly(suite, s);
  }

  // ----- its certificates -----

  function SoleSubmission(suite: Suite, secret: Scalar, digest: Bytes32): RawG1 {
    match Sign(suite, secret, digest)
    case None => OffCurve
    case Some(p) => OnCurve(p)
  }

  /** The operator's own signature, aggregated with nobody else's. */
  function SoleAggregate(suite: Suite, secret: Scalar, digest: Bytes32): Option<(Bytes32, Bytes64)> {
    Aggregate(suite, [SoleSubmission(suite, secret, digest)], [suite.compressG2(Subgroup(secret))])
  }

  const SOLE_BITMAP: seq<bv8> := [1]

  lemma SoleStakes(suite: Suite, s: Setup, v: SnapshotView, epochLength: U64)
    requires epochLength > 0 && v.operatorsRegistered == 1
    requires v.slots == EmptySlots()[0 := StakedOperator(suite, s)]
    ensures BitAt(SOLE_BITMAP, 0)
    ensures var epoch := EpochOf(s.clock, epochLength);
            TotalStake(v, epoch, epochLength) == s.stake == SignedStake(v, SOLE_BITMAP, epoch, epochLength)
  {
    var epoch := EpochOf(s.clock, epochLength);
    var stakes, signed := Stakes(v.slots, epoch, epochLength), SignedStakes(v.slots, SOLE_BITMAP, epoch, epochLength);
    assert BitAt(SOLE_BITMAP, 0);
    assert stakes[0] == s.stake == signed[0];
    assert NatSum(stakes, 0) == 0 == NatSum(signed, 0);
  }

  lemma SoleSignerReady(suite: Suite, s: Setup, v: SnapshotView, epochLength: U64)
    requires suite.Lawful() && epochLength > 0
    requires v.slots == EmptySlots()[0 := StakedOperator(suite, s)]
    requires v.operatorsRegistered == 1
    ensures BitmapOf(v, [], SOLE_BITMAP) && ListsSigners(v, [], [0])
    ensures ReadySigners(suite, v, [0], [s.secret], EpochOf(s.clock, epochLength), epochLength)
  {
    assert BitAt(SOLE_BITMAP, 0);
    assert v.slots[0] == StakedOperator(suite, s);
  }

  lemma SoleSubmits(suite: Suite, secret: Scalar, digest: Bytes32)
    requires suite.Lawful() && suite.hashToCurve(digest).Some?
    ensures HonestSubmissions(suite, digest, [secret], [SoleSubmission(suite, secret, digest)],
                              [suite.compressG2(Subgroup(secret))])
  {}

  lemma SoleQuorum(suite: Suite, s: Setup, v: SnapshotView, config: VerifyConfig)
    requires config.epochLength > 0 && config.consensusThresholdBps <= MAX_BPS && s.stake > 0
    requires v.operatorsRegistered == 1 && v.slots == EmptySlots()[0 := StakedOperator(suite, s)]
    ensures QuorumMet(v, config, s.clock, SOLE_BITMAP)
  {
    SoleStakes(suite, s, v, config.epochLength);
  }

  lemma SoleDense(suite: Suite, s: Setup, v: SnapshotView)
    requires v.operatorsRegistered == 1 && v.slots == EmptySlots()[0 := StakedOperator(suite, s)]
    ensures Dense(v)
  {}

  /** The operator alone makes an honest round. */
  lemma SoleOperatorRound(suite: Suite, s: Setup, v: SnapshotView, config: VerifyConfig, digest: Bytes32)
    requires suite.Lawful() && s.Usable(suite) && suite.hashToCurve(digest).Some?
    requires config.epochLength > 0 && config.consensusThresholdBps <= MAX_BPS
    requires v.slots == EmptySlots()[0 := StakedOperator(suite, s)]
    requires v.operatorsRegistered == 1 && v.lastSnapshotSlot == s.clock
    ensures HonestRound(suite, v, config, s.clock, digest, [], SOLE_BITMAP, [0], [s.secret],
                        [SoleSubmission(suite, s.secret, digest)], [suite.compressG2(Subgroup(s.secret))])
  {
    SoleQuorum(suite, s, v, config);
    SoleSignerReady(suite, s, v, config.epochLength);
    SoleSubmits(suite, s.secret, digest);
  }

  lemma SoleAggregateKey(suite: Suite, s: Setup, v: SnapshotView)
    requires suite.Lawful() && s.Usable(suite) && ApkAgrees(suite, v)
    requires v.slots == EmptySlots()[0 := StakedOperator(suite, s)]
    ensures v.apk != ZERO32
  {
    SoleOperatorSum(suite, v.slots, 0);
    ZeroDecodesToIdentity(suite);
  }

  /** In the state the program reaches, the operator's certificate over any
      hashable digest is accepted at any threshold up to all of the stake. */
  lemma SoleOperatorCertifies(suite: Suite, s: Setup, config: VerifyConfig, digest: Bytes32)
    requires suite.Lawful() && s.Usable(suite) && suite.hashToCurve(digest).Some?
    requires config.epochLength > 0 && config.consensusThresholdBps <= MAX_BPS
    ensures var st := Run(suite, SetupProgram(suite, s));
            && st.clock == s.clock && st.snapshot.Some?
            && SoleAggregate(suite, s.secret, digest).Some?
            && VerifyResult(suite, st.snapshot.value, config, s.clock,
                            CertificateOf(st.snapshot.value, digest, SOLE_BITMAP,
                                          SoleAggregate(suite, s.secret, digest).value)).Ok?
  {
    var program := SetupProgram(suite, s);
    var st := Run(suite, program);
    SetupRuns(suite, s);
    var v := st.snapshot.value;
    ApkAgreement(suite, program);
    SoleAggregateKey(suite, s, v);
    SoleDense(suite, s, v);
    SoleOperatorRound(suite, s, v, config, digest);
    HonestCertificateAccepted(suite, st, config, s.clock, digest, [], SOLE_BITMAP, [0], [s.secret],
                              [SoleSubmission(suite, s.secret, digest)], [suite.compressG2(Subgroup(s.secret))]);
  }

  // ----- the other way to start -----

  /** Density fails at once if the first registration takes an index above
      zero: the loop then never visits the operator, and every certificate is
      refused for want of stake or earlier. */
  lemma SparseFirstRegistration(suite: Suite, st: NcnState, operator: Pubkey, index: U64, secret: Scalar,
                                config: VerifyConfig, currentSlot: U64, cert: Certificate)
    requires suite.Lawful() && Sound(st) && Inv(suite, st) && st.snapshot.Some?
    requires st.snapshot.value.operatorsRegistered == 0 && st.snapshot.value.generation < U64_MAX
    requires 0 < index < MAX_OPERATORS && Hashable(suite, operator, secret)
    ensures var after := Step(suite, st, RegisterWith(suite, operator, index, secret));
            && after.snapshot.Some?
            && !Dense(after.snapshot.value)
            && VerifyResult(suite, after.snapshot.value, config, currentSlot, cert).Err?
  {
    FirstRegistration(suite, st, operator, index, secret);
    EmptySetHasNoOperators(suite, st);
    var v := Step(suite, st, RegisterWith(suite, operator, index, secret)).snapshot.value;
    assert v.slots[index].IsLive() && !v.slots[0].IsLive();
    if config.epochLength > 0 {
      var stakes := Stakes(v.slots, EpochOf(currentSlot, config.epochLength), config.epochLength);
      assert stakes[0] == 0 && NatSum(stakes, 0) == 0;
    }
    VerifyAcceptsIff(suite, v, config, currentSlot, cert);
  }

  // ----- a crowd that cannot rotate -----

  /** 256 different operators. */
  function Everybody(): (operators: seq<Pubkey>)
    ensures |operators| == MAX_OPERATORS
    ensures forall i :: 0 <= i < |operators| ==> FromBe(operators[i]) == i
  {
    seq(MAX_OPERATORS, i requires 0 <= i < MAX_OPERATORS => Padded32(i))
  }

  /** A run in which a live operator's valid rotation is refused for the size of
      the set. */
  lemma RotationLimitReached() returns (suite: Suite, program: seq<Instruction>, operator: Pubkey, secret: Scalar)
    ensures suite.Lawful()
    ensures var st, ins := Run(suite, program), RotateTo(suite, operator, secret);
            && st.snapshot.Some? && FindOperator(st.snapshot.value.slots, operator, 0).Some?
            && CheckRotationKeys(suite, operator, ins.g1Key, ins.g2Key, ins.signature).Ok?
            && Execute(suite, st, ins) == Err(InvalidOperatorCount)
  {
    suite := LawfulSuiteExists();
    var operators, secrets := Everybody(), seq(MAX_OPERATORS, _ => 1);
    var opening := [Tick(0)] + Growth(REALLOCS, 0);
    SnapshotGrows(suite, 0, 0, REALLOCS);
    FullCrowdCannotRotate(suite, opening, operators, secrets, 0, 0, 1);
    HonestRotationPasses(suite, operators[0], 1);
    program, operator, secret := opening + Crowd(suite, operators, secrets), operators[0], 1;
  }
}
