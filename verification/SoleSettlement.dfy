/**
 Runs that exist: an NCN with one operator, a state, a staged story, a settle and
 the closing of the buffer. The state may be recorded under another NCN than the
 one whose quorum settles it.
 */
module SoleSettlement {
  import opened Prelude
  import opened HashToField
  import opened NcnProgram
  import opened HonestOperators
  import opened Certificate
  import opened SoleOperator
  import opened Payload
  import opened Buffer
  import opened Settlement
  import opened SettlementRuns
  import opened SettlementBacking
  import opened Producer
  import opened EndToEnd

  // ----- NCN instructions as operations -----

  function Calls(ncn: Pubkey, calls: seq<Instruction>): seq<Op>
    requires forall i :: 0 <= i < |calls| ==> !calls[i].Tick?
  {
    seq(|calls|, i requires 0 <= i < |calls| => NcnInstruction(ncn, calls[i]))
  }

  /** Only the NCN's state may differ. */
  predicate SameButNcn(h: History, after: History, ncn: Pubkey) {
    var c, d := h.world.cluster, after.world.cluster;
    && after.log == h.log && after.world.states == h.world.states && after.world.buffers == h.world.buffers
    && d.clock == c.clock && d.ncns.Keys == c.ncns.Keys
    && (ncn in c.ncns ==>
          && d.ncns[ncn].consensusThresholdBps == c.ncns[ncn].consensusThresholdBps
          && d.ncns[ncn].validSlotsAfterConsensus == c.ncns[ncn].validSlotsAfterConsensus)
  }

  lemma OneCall(chain: Chain, h: History, ncn: Pubkey, call: NcnCall)
    requires ncn in h.world.cluster.ncns
    ensures SameButNcn(h, Advance(chain, h, NcnInstruction(ncn, call)), ncn)
  {
    var r := NcnStepped(chain, h.world.cluster, ncn, call);
    if r.Ok? {
      assert r.value.ncns.Keys == h.world.cluster.ncns.Keys + {ncn};
    }
  }

  lemma CallsCons(ops: seq<Op>, ncn: Pubkey, calls: seq<Instruction>)
    requires calls != [] && forall i :: 0 <= i < |calls| ==> !calls[i].Tick?
    ensures ops + Calls(ncn, calls) == ops + [NcnInstruction(ncn, calls[0])] + Calls(ncn, calls[1..])
  {}

  lemma CallPlays(chain: Chain, ops: seq<Op>, ncn: Pubkey, call: NcnCall)
    requires ncn in Play(chain, ops).world.cluster.ncns
    ensures SameButNcn(Play(chain, ops), Play(chain, ops + [NcnInstruction(ncn, call)]), ncn)
  {
    PlayAppend(chain, ops, NcnInstruction(ncn, call));
    OneCall(chain, Play(chain, ops), ncn, call);
  }

  /** They touch nothing but the NCN's state. */
  lemma {:induction false} CallsPlay(chain: Chain, ops: seq<Op>, ncn: Pubkey, calls: seq<Instruction>)
    requires forall i :: 0 <= i < |calls| ==> !calls[i].Tick?
    requires ncn in Play(chain, ops).world.cluster.ncns
    ensures SameButNcn(Play(chain, ops), Play(chain, ops + Calls(ncn, calls)), ncn)
    decreases |calls|
  {
    if calls == [] {
      assert ops + Calls(ncn, calls) == ops;
    } else {
      CallPlays(chain, ops, ncn, calls[0]);
      CallsPlay(chain, ops + [NcnInstruction(ncn, calls[0])], ncn, calls[1..]);
      CallsCons(ops, ncn, calls);
    }
  }

  lemma CallReaches(chain: Chain, ops: seq<Op>, ncn: Pubkey, call: NcnCall, program: seq<Instruction>)
    requires ncn in Play(chain, ops).world.cluster.ncns && NcnOk(chain, Play(chain, ops).world.cluster, ncn, program)
    ensures var c := Play(chain, ops + [NcnInstruction(ncn, call)]).world.cluster;
            ncn in c.ncns && NcnOk(chain, c, ncn, program + [call])
  {
    PlayAppend(chain, ops, NcnInstruction(ncn, call));
    CallStep(chain, Play(chain, ops).world.cluster, call, ncn, program);
  }

  /** They take it to the state its longer program reaches. */
  lemma {:induction false} CallsReach(chain: Chain, ops: seq<Op>, ncn: Pubkey, calls: seq<Instruction>, program: seq<Instruction>)
    requires forall i :: 0 <= i < |calls| ==> !calls[i].Tick?
    requires ncn in Play(chain, ops).world.cluster.ncns && NcnOk(chain, Play(chain, ops).world.cluster, ncn, program)
    ensures NcnOk(chain, Play(chain, ops + Calls(ncn, calls)).world.cluster, ncn, program + calls)
    decreases |calls|
  {
    if calls == [] {
      assert ops + Calls(ncn, calls) == ops && program + calls == program;
    } else {
      CallReaches(chain, ops, ncn, calls[0], program);
      CallsReach(chain, ops + [NcnInstruction(ncn, calls[0])], ncn, calls[1..], program + [calls[0]]);
      CallsCons(ops, ncn, calls);
      assert program + calls == program + [calls[0]] + calls[1..];
    }
  }

  // ----- the network -----

  /** Whose state, certified by whom. */
  datatype Plan = Plan(own: Pubkey, appId: Bytes32, sim: Bytes32, env: Bytes32,
                       certifier: Pubkey, thresholdBps: U16, validSlots: U64, epochLength: U64, setup: Setup)
  {
    predicate Usable(chain: Chain) {
      thresholdBps <= MAX_BPS && epochLength > 0 && setup.clock == 0 && setup.Usable(chain.SuiteFor(certifier))
    }
  }

  function Start(plan: Plan): seq<Op> {
    [InitializeState(plan.own, plan.appId, plan.sim, plan.env)]
    + [OpenNcn(plan.certifier, plan.thresholdBps, plan.validSlots)]
  }

  function Network(chain: Chain, plan: Plan): seq<Op> {
    Start(plan) + Calls(plan.certifier, SetupCalls(chain.SuiteFor(plan.certifier), plan.setup))
  }

  lemma StartPlays(chain: Chain, plan: Plan)
    ensures Play(chain, Start(plan)) ==
            History(World(map[chain.statePda(plan.own, plan.appId) :=
                                GkState(plan.own, plan.appId, ZERO32, 0, plan.sim, plan.env)], map[],
                          Cluster(0, map[plan.certifier := NcnAccount(GENESIS, plan.thresholdBps, plan.validSlots)])), [])
  {
    var init := InitializeState(plan.own, plan.appId, plan.sim, plan.env);
    assert [] + [init] == [init];
    PlayAppend(chain, [], init);
    PlayAppend(chain, [init], OpenNcn(plan.certifier, plan.thresholdBps, plan.validSlots));
  }

  lemma OpenedOk(chain: Chain, c: Cluster, ncn: Pubkey)
    requires c.clock == 0 && ncn in c.ncns && c.ncns[ncn].state == GENESIS
    ensures NcnOk(chain, c, ncn, [Tick(0)])
  {
    assert [] + [Tick(0)] == [Tick(0)];
    RunAppend(chain.SuiteFor(ncn), [], Tick(0));
  }

  /** The network stands: one state with count zero, one NCN in the state its
      setup program reaches. */
  lemma NetworkPlays(chain: Chain, plan: Plan)
    ensures var h := Play(chain, Network(chain, plan));
            && h.log == [] && h.world.buffers == map[] && h.world.cluster.clock == 0
            && h.world.states == map[chain.statePda(plan.own, plan.appId) :=
                                       GkState(plan.own, plan.appId, ZERO32, 0, plan.sim, plan.env)]
            && h.world.cluster.ncns.Keys == {plan.certifier}
            && h.world.cluster.ncns[plan.certifier].consensusThresholdBps == plan.thresholdBps
            && h.world.cluster.ncns[plan.certifier].validSlotsAfterConsensus == plan.validSlots
            && (plan.setup.clock == 0 ==>
                  h.world.cluster.ncns[plan.certifier].state
                    == Run(chain.SuiteFor(plan.certifier), SetupProgram(chain.SuiteFor(plan.certifier), plan.setup)))
  {
    StartPlays(chain, plan);
    CallsPlay(chain, Start(plan), plan.certifier, SetupCalls(chain.SuiteFor(plan.certifier), plan.setup));
    OpenedOk(chain, Play(chain, Start(plan)).world.cluster, plan.certifier);
    CallsReach(chain, Start(plan), plan.certifier, SetupCalls(chain.SuiteFor(plan.certifier), plan.setup), [Tick(0)]);
  }

  /** Its operator's proof for the digest of a payload. */
  function SoleProof(chain: Chain, plan: Plan, digest: Bytes32): Option<Proof> {
    var suite := chain.SuiteFor(plan.certifier);
    var st := Run(suite, SetupProgram(suite, plan.setup));
    match (SoleAggregate(suite, plan.setup.secret, digest), st.snapshot)
    case (Some(aggregate), Some(v)) => Some(ProofOf(aggregate, SOLE_BITMAP, v.generation))
    case _ => None
  }

  lemma SoleProofCertifies(chain: Chain, plan: Plan, bytes: Bytes)
    requires chain.suite.Lawful() && plan.Usable(chain) && chain.suite.hashToCurve(chain.sha256(bytes)).Some?
    ensures SoleProof(chain, plan, chain.sha256(bytes)).Some?
    ensures PayloadCertified(chain, Play(chain, Network(chain, plan)).world.cluster, plan.certifier, plan.epochLength, bytes,
                             SoleProof(chain, plan, chain.sha256(bytes)).value).Ok?
  {
    var suite, digest := chain.SuiteFor(plan.certifier), chain.sha256(bytes);
    NetworkPlays(chain, plan);
    SoleOperatorCertifies(suite, plan.setup, VerifyConfig(plan.thresholdBps, plan.validSlots, plan.epochLength), digest);
  }

  // ----- a whole run -----

  /** A story for the first transition of the plan's state. */
  predicate FirstStory(chain: Chain, plan: Plan, inputs: ProducerInputs) {
    && inputs.statePda == chain.statePda(plan.own, plan.appId)
    && inputs.transitionIndex == 0 && inputs.ixDiscriminator == SETTLE_DISCRIMINATOR
    && inputs.buffer == chain.bufferPda(inputs.statePda, 0)
  }

  /** Every plan can be carried out: the story is staged and settled by the
      certifier's quorum, whatever NCN the state is recorded under. */
  lemma PlanSettles(chain: Chain, plan: Plan, inputs: ProducerInputs, p: SettlementPayload, chunks: seq<Bytes>,
                    maxContent: U32, payer: Pubkey) returns (settle: Op)
    requires chain.suite.Lawful() && plan.Usable(chain) && FirstStory(chain, plan, inputs)
    requires Tells(chain, inputs, p) && chain.suite.hashToCurve(chain.sha256(EncodePayload(p))).Some?
    requires GoodChunks(chunks, inputs.story, maxContent)
    ensures settle.Settle? && settle.state == inputs.statePda && settle.ncn == plan.certifier && settle.payload == p
    ensures Upload(chunks, maxContent, payer).Ok? && Upload(chunks, maxContent, payer).value.Some?
    ensures inputs.statePda in Play(chain, Network(chain, plan)).world.states
    ensures Play(chain, Network(chain, plan) + Staging(inputs, chunks, maxContent, payer) + [settle])
         == History(StorySettled(Play(chain, Network(chain, plan)).world, inputs, Upload(chunks, maxContent, payer).value.value),
                    [settle])
  {
    NetworkPlays(chain, plan);
    SoleProofCertifies(chain, plan, EncodePayload(p));
    settle := Settle(inputs.statePda, Some(inputs.buffer), plan.certifier, plan.epochLength, p,
                     SoleProof(chain, plan, chain.sha256(EncodePayload(p))).value);
    CertifiedStorySettles(chain, Network(chain, plan), inputs, p, chunks, maxContent, payer, settle);
  }

  /** So an NCN that a state does not name can settle it: in the run of a plan
      whose certifier is another NCN the state moves to the new root, though the
      NCN it is recorded under was never even opened. */
  lemma ForeignNcnSettles(chain: Chain, plan: Plan, inputs: ProducerInputs, p: SettlementPayload, chunks: seq<Bytes>,
                          maxContent: U32, payer: Pubkey) returns (ops: seq<Op>)
    requires chain.suite.Lawful() && plan.Usable(chain) && FirstStory(chain, plan, inputs)
    requires plan.certifier != plan.own
    requires Tells(chain, inputs, p) && chain.suite.hashToCurve(chain.sha256(EncodePayload(p))).Some?
    requires GoodChunks(chunks, inputs.story, maxContent)
    ensures var w := Play(chain, ops).world;
            && inputs.statePda in w.states
            && w.states[inputs.statePda].ncn == plan.own && plan.own !in w.cluster.ncns
            && w.states[inputs.statePda].commitmentRoot == inputs.newRoot
            && w.states[inputs.statePda].transitionCount == 1
  {
    var settle := PlanSettles(chain, plan, inputs, p, chunks, maxContent, payer);
    NetworkPlays(chain, plan);
    ops := Network(chain, plan) + Staging(inputs, chunks, maxContent, payer) + [settle];
  }

  // ----- a whole life of a buffer -----

  /** Operations on no other buffer than the plan's own. */
  predicate OnlyBuffer(ops: seq<Op>, state: Pubkey, index: U64) {
    forall k :: 0 <= k < |ops| && (ops[k].WriteBuffer? || ops[k].CloseBuffer?) ==> ops[k].state == state && ops[k].index == index
  }

  lemma {:induction false} StagingOnlyBuffer(inputs: ProducerInputs, chunks: seq<Bytes>, maxContent: U32, payer: Pubkey)
    requires |Flatten(chunks)| <= U32_MAX
    ensures OnlyBuffer(Staging(inputs, chunks, maxContent, payer), inputs.statePda, inputs.transitionIndex)
    ensures forall k :: 0 <= k < |Staging(inputs, chunks, maxContent, payer)| ==>
              Staging(inputs, chunks, maxContent, payer)[k].WriteBuffer?
  {
    if chunks != [] {
      StagingOnlyBuffer(inputs, chunks[..|chunks| - 1], maxContent, payer);
    }
  }

  lemma ClosesSettled(chain: Chain, w: World, inputs: ProducerInputs, data: Bytes, payer: Pubkey, maxContent: U32)
    requires Unstaged(chain, w, inputs) && inputs.transitionIndex < U64_MAX
    requires ReadTrailer(data) == Ok((payer, maxContent))
    ensures var settled := StorySettled(w, inputs, data);
            var close := CloseBuffer(inputs.statePda, inputs.buffer, inputs.transitionIndex, payer);
            Perform(chain, settled, close) == Ok(settled.(buffers := settled.buffers - {inputs.buffer}))
  {}

  /** The hypotheses of the results on buffers are met by real runs: the plan's
      story is staged, settled and its buffer closed, by operations that reach no
      other buffer. */
  lemma LifeCycleExists(chain: Chain, plan: Plan, inputs: ProducerInputs, p: SettlementPayload, chunks: seq<Bytes>,
                        maxContent: U32, payer: Pubkey) returns (ops: seq<Op>)
    requires chain.suite.Lawful() && plan.Usable(chain) && FirstStory(chain, plan, inputs)
    requires Tells(chain, inputs, p) && chain.suite.hashToCurve(chain.sha256(EncodePayload(p))).Some?
    requires GoodChunks(chunks, inputs.story, maxContent)
    ensures OpsDistinct(chain, ops, inputs.statePda, 0) && SettledDistinct(chain, ops) && |ops| > 0
    ensures Upload(chunks, maxContent, payer).Ok? && Upload(chunks, maxContent, payer).value.Some?
    ensures BufferAt(Play(chain, ops[..|ops| - 1]).world, inputs.buffer) == Upload(chunks, maxContent, payer).value
    ensures HasSettled(Play(chain, ops).world, inputs.statePda, 0)
    ensures BufferAt(Play(chain, ops).world, inputs.buffer).None?
  {
    var settle := PlanSettles(chain, plan, inputs, p, chunks, maxContent, payer);
    var before := Network(chain, plan) + Staging(inputs, chunks, maxContent, payer) + [settle];
    ops := before + [CloseBuffer(inputs.statePda, inputs.buffer, 0, payer)];
    LifeCycleDistinct(chain, plan, inputs, chunks, maxContent, payer, settle, ops);
    assert ops[..|ops| - 1] == before;
    PlayAppend(chain, before, CloseBuffer(inputs.statePda, inputs.buffer, 0, payer));
    UploadSucceeds(chunks, maxContent, payer);
    var data := Upload(chunks, maxContent, payer).value.value;
    var content :| Refines(data, content, payer, maxContent);
    RefinesReadsTrailer(data, content, payer, maxContent);
    NetworkPlays(chain, plan);
    ClosesSettled(chain, Play(chain, Network(chain, plan)).world, inputs, data, payer, maxContent);
  }

  lemma LifeCycleDistinct(chain: Chain, plan: Plan, inputs: ProducerInputs, chunks: seq<Bytes>, maxContent: U32,
                          payer: Pubkey, settle: Op, ops: seq<Op>)
    requires |Flatten(chunks)| <= U32_MAX && FirstStory(chain, plan, inputs)
    requires settle.Settle? && settle.state == inputs.statePda && settle.payload.transitionIndex == 0
    requires ops == Network(chain, plan) + Staging(inputs, chunks, maxContent, payer) + [settle]
                    + [CloseBuffer(inputs.statePda, inputs.buffer, 0, payer)]
    ensures OpsDistinct(chain, ops, inputs.statePda, 0) && SettledDistinct(chain, ops)
  {
    StagingOnlyBuffer(inputs, chunks, maxContent, payer);
    assert OnlyBuffer(ops, inputs.statePda, 0);
  }

  lemma NonzeroKey() returns (key: Pubkey)
    ensures key != ZERO32
  {
    key := Padded32(1);
    ZerosAreZero(32);
  }

  /** And such plans exist, down to the chain they run on. */
  lemma PlansExist() returns (chain: Chain, plan: Plan, inputs: ProducerInputs, p: SettlementPayload, chunks: seq<Bytes>)
    ensures chain.suite.Lawful() && plan.Usable(chain) && FirstStory(chain, plan, inputs)
    ensures plan.certifier != plan.own
    ensures Tells(chain, inputs, p) && chain.suite.hashToCurve(chain.sha256(EncodePayload(p))).Some?
    ensures GoodChunks(chunks, inputs.story, 1) && inputs.story != []
  {
    var suite := LawfulSuiteExists();
    var one := NonzeroKey();
    chain := Chain(_ => ZERO32, (n, a) => a, (s, i) => one, one, (n, o, k) => k, suite);
    plan := Plan(ZERO32, ZERO32, ZERO32, ZERO32, one, MAX_BPS, 0, 1, Setup(0, 1, one, one, one, 1, 1));
    inputs := ProducerInputs([7], one, 0, ZERO32, SETTLE_DISCRIMINATOR, one);
    p := BuildPayload(chain.sha256, inputs).value;
    chunks := [[7]];
    ProducedTells(chain, inputs);
    assert Flatten(chunks[..0]) == [];
  }
}
