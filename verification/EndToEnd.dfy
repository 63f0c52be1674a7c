/**
 From a staged story to a settled state: what the producer, the signers and the
 command line make between them, the settlement program accepts.
 */
module EndToEnd {
  import opened Prelude
  import opened ScalarField
  import opened Bls
  import opened NcnProgram
  import opened Certificate
  import opened Aggregation
  import opened Payload
  import opened Buffer
  import opened Settlement
  import opened SettlementBacking
  import opened Producer

  lemma PlayAppend(chain: Chain, ops: seq<Op>, op: Op)
    ensures Play(chain, ops + [op]) == Advance(chain, Play(chain, ops), op)
  {
    assert (ops + [op])[..|ops|] == ops;
  }

  // ----- staging -----

  /** One write for each chunk, at the end of the previous one. */
  function Staging(inputs: ProducerInputs, chunks: seq<Bytes>, maxContent: U32, payer: Pubkey): seq<Op>
    requires |Flatten(chunks)| <= U32_MAX
  {
    if chunks == [] then []
    else
      var earlier := chunks[..|chunks| - 1];
      Staging(inputs, earlier, maxContent, payer)
      + [WriteBuffer(inputs.statePda, inputs.buffer, inputs.transitionIndex,
                     WriteArgs(|Flatten(earlier)|, chunks[|chunks| - 1], maxContent), payer)]
  }

  /** The current transition of an existing state, with no buffer yet. */
  predicate Unstaged(chain: Chain, w: World, inputs: ProducerInputs) {
    && inputs.statePda in w.states
    && w.states[inputs.statePda].transitionCount == inputs.transitionIndex
    && inputs.buffer == chain.bufferPda(inputs.statePda, inputs.transitionIndex)
    && inputs.buffer !in w.buffers
  }

  function WithBuffer(w: World, key: Pubkey, data: Option<Bytes>): World {
    match data
    case None => w
    case Some(bytes) => w.(buffers := w.buffers[key := bytes])
  }

  /** Played after any run, the writes amount to the upload. */
  lemma {:induction false} StagingUploads(chain: Chain, ops: seq<Op>, inputs: ProducerInputs, chunks: seq<Bytes>,
                                          maxContent: U32, payer: Pubkey)
    requires |Flatten(chunks)| <= U32_MAX && Unstaged(chain, Play(chain, ops).world, inputs)
    requires Upload(chunks, maxContent, payer).Ok?
    ensures Play(chain, ops + Staging(inputs, chunks, maxContent, payer)) ==
            History(WithBuffer(Play(chain, ops).world, inputs.buffer, Upload(chunks, maxContent, payer).value),
                    Play(chain, ops).log)
  {
    if chunks == [] {
      assert ops + [] == ops;
    } else {
      var earlier := chunks[..|chunks| - 1];
      var before := ops + Staging(inputs, earlier, maxContent, payer);
      var write := WriteBuffer(inputs.statePda, inputs.buffer, inputs.transitionIndex,
                               WriteArgs(|Flatten(earlier)|, chunks[|chunks| - 1], maxContent), payer);
      StagingUploads(chain, ops, inputs, earlier, maxContent, payer);
      assert ops + Staging(inputs, chunks, maxContent, payer) == before + [write];
      PlayAppend(chain, before, write);
      OneWrite(chain, Play(chain, ops).world, inputs, Upload(earlier, maxContent, payer).value, write);
    }
  }

  lemma OneWrite(chain: Chain, w: World, inputs: ProducerInputs, before: Option<Bytes>, op: Op)
    requires Unstaged(chain, w, inputs) && op.WriteBuffer?
    requires op.state == inputs.statePda && op.account == inputs.buffer && op.index == inputs.transitionIndex
    requires Written(before, op.args, op.payer).Ok?
    ensures Perform(chain, WithBuffer(w, inputs.buffer, before), op)
         == Ok(WithBuffer(w, inputs.buffer, Some(Written(before, op.args, op.payer).value)))
  {
    var staged := WithBuffer(w, inputs.buffer, before);
    assert BufferAt(staged, inputs.buffer) == before;
    assert staged.buffers[inputs.buffer := Written(before, op.args, op.payer).value]
        == w.buffers[inputs.buffer := Written(before, op.args, op.payer).value];
  }

  predicate GoodChunks(chunks: seq<Bytes>, story: Bytes, maxContent: U32) {
    && chunks != [] && Flatten(chunks) == story && |story| <= maxContent <= MAX_BUFFER_CONTENT_LEN
    && (forall i :: 0 <= i < |chunks| ==> |chunks[i]| <= MAX_PERMITTED_DATA_INCREASE)
    && |chunks[0]| <= MAX_PERMITTED_DATA_INCREASE - BUFFER_TRAILER_LEN
  }

  // ----- settling -----

  /** An orderly NCN, its aggregate not the identity encoding, whose ready
      signers put enough stake behind a digest. */
  ghost predicate SigningRound(chain: Chain, ops: seq<Op>, ncn: Pubkey, epochLength: U64, digest: Bytes32,
                               nonSigners: seq<nat>, bitmap: seq<bv8>, order: seq<nat>, secrets: seq<Scalar>,
                               signatures: seq<RawG1>, g2Keys: seq<Bytes64>) {
    var c := Play(chain, ops).world.cluster;
    && ncn in c.ncns && LoadNcn(c, ncn).Ok? && LoadNcn(c, ncn).value.apk != ZERO32
    && Orderly(chain.SuiteFor(ncn), ProgramOf(chain, ops, ncn))
    && HonestRound(chain.SuiteFor(ncn), LoadNcn(c, ncn).value,
                   VerifyConfig(c.ncns[ncn].consensusThresholdBps, c.ncns[ncn].validSlotsAfterConsensus, epochLength),
                   c.clock, digest, nonSigners, bitmap, order, secrets, signatures, g2Keys)
  }

  lemma RoundCertifies(chain: Chain, ops: seq<Op>, ncn: Pubkey, epochLength: U64, digest: Bytes32,
                       nonSigners: seq<nat>, bitmap: seq<bv8>, order: seq<nat>, secrets: seq<Scalar>,
                       signatures: seq<RawG1>, g2Keys: seq<Bytes64>)
    requires chain.suite.Lawful()
    requires SigningRound(chain, ops, ncn, epochLength, digest, nonSigners, bitmap, order, secrets, signatures, g2Keys)
    ensures Aggregate(chain.SuiteFor(ncn), signatures, g2Keys).Some?
    ensures var c, aggregate := Play(chain, ops).world.cluster, Aggregate(chain.SuiteFor(ncn), signatures, g2Keys).value;
            LoadNcn(c, ncn).Ok?
            && NcnVerdict(chain, c, ncn, epochLength, CertificateOf(LoadNcn(c, ncn).value, digest, bitmap, aggregate)).Ok?
  {
    var c, suite, program := Play(chain, ops).world.cluster, chain.SuiteFor(ncn), ProgramOf(chain, ops, ncn);
    PlayNcn(chain, ops, ncn);
    OrderlyState(suite, program);
    HonestCertificateAccepted(suite, Run(suite, program),
                              VerifyConfig(c.ncns[ncn].consensusThresholdBps, c.ncns[ncn].validSlotsAfterConsensus, epochLength),
                              c.clock, digest, nonSigners, bitmap, order, secrets, signatures, g2Keys);
  }

  /** The certificate arguments made of an aggregate. */
  function ProofOf(aggregate: (Bytes32, Bytes64), bitmap: seq<bv8>, generation: U64): Proof {
    Proof(aggregate.1, aggregate.0, bitmap, generation)
  }

  /** The payload binds the settle of this transition and, wherever the buffer
      holds the story, is valid and yields the new root. */
  ghost predicate Tells(chain: Chain, inputs: ProducerInputs, p: SettlementPayload) {
    && p.transitionIndex == inputs.transitionIndex && p.statePda == inputs.statePda
    && p.ixDiscriminator == SETTLE_DISCRIMINATOR && Encodable(p) && AllEmitted(chain, p.updates).Ok?
    && forall w: World :: HoldsStory(chain, w, inputs.buffer, inputs.story) ==>
         Validated(chain, w, inputs.statePda, inputs.transitionIndex, p.updates, Some(inputs.buffer)) == Ok(inputs.newRoot)
  }

  /** The produced payload does, if it is produced for the settle instruction
      and the transition's own buffer. */
  lemma ProducedTells(chain: Chain, inputs: ProducerInputs)
    requires |inputs.story| <= U32_MAX && inputs.ixDiscriminator == SETTLE_DISCRIMINATOR
    requires inputs.buffer == chain.bufferPda(inputs.statePda, inputs.transitionIndex)
    ensures Tells(chain, inputs, BuildPayload(chain.sha256, inputs).value)
  {
    var p := BuildPayload(chain.sha256, inputs).value;
    ProducedPayloadValidIff(chain, EMPTY_WORLD, inputs);
    EmittedPrefixIff(chain, p.updates, |p.updates|);
    forall w: World | HoldsStory(chain, w, inputs.buffer, inputs.story)
      ensures Validated(chain, w, inputs.statePda, inputs.transitionIndex, p.updates, Some(inputs.buffer)) == Ok(inputs.newRoot)
    {
      ProducedPayloadValidIff(chain, w, inputs);
    }
  }

  /** The world after the story has been staged and settled. */
  function StorySettled(w: World, inputs: ProducerInputs, data: Bytes): World
    requires inputs.statePda in w.states && inputs.transitionIndex < U64_MAX
  {
    var g := w.states[inputs.statePda];
    w.(states := w.states[inputs.statePda := g.(commitmentRoot := inputs.newRoot,
                                                transitionCount := inputs.transitionIndex + 1)],
       buffers := w.buffers[inputs.buffer := data])
  }

  lemma StagedDiffApplies(chain: Chain, w: World, inputs: ProducerInputs, p: SettlementPayload, data: Bytes)
    requires Tells(chain, inputs, p) && inputs.transitionIndex < U64_MAX && Unstaged(chain, w, inputs)
    requires |inputs.story| + BUFFER_TRAILER_LEN <= |data| && data[..|inputs.story|] == inputs.story
    ensures var staged := WithBuffer(w, inputs.buffer, Some(data));
            && PayloadBound(staged, inputs.statePda, p) == Ok(EncodePayload(p))
            && DiffApplied(chain, staged, inputs.statePda, Some(inputs.buffer), p) == Ok(StorySettled(w, inputs, data))
  {
    assert HoldsStory(chain, WithBuffer(w, inputs.buffer, Some(data)), inputs.buffer, inputs.story);
  }

  lemma StagedWorldSettles(chain: Chain, w: World, inputs: ProducerInputs, p: SettlementPayload, data: Bytes, op: Op)
    requires Tells(chain, inputs, p) && inputs.transitionIndex < U64_MAX && Unstaged(chain, w, inputs)
    requires |inputs.story| + BUFFER_TRAILER_LEN <= |data| && data[..|inputs.story|] == inputs.story
    requires op.Settle? && op.state == inputs.statePda && op.buffer == Some(inputs.buffer) && op.payload == p
    requires PayloadCertified(chain, w.cluster, op.ncn, op.epochLength, EncodePayload(p), op.proof).Ok?
    ensures Perform(chain, WithBuffer(w, inputs.buffer, Some(data)), op) == Ok(StorySettled(w, inputs, data))
  {
    StagedDiffApplies(chain, w, inputs, p, data);
  }

  /** Once certified, a payload that tells a story settles after the story has
      been staged in chunks. */
  lemma CertifiedStorySettles(chain: Chain, ops: seq<Op>, inputs: ProducerInputs, p: SettlementPayload, chunks: seq<Bytes>,
                              maxContent: U32, payer: Pubkey, op: Op)
    requires Tells(chain, inputs, p) && inputs.transitionIndex < U64_MAX
    requires GoodChunks(chunks, inputs.story, maxContent) && Unstaged(chain, Play(chain, ops).world, inputs)
    requires op.Settle? && op.state == inputs.statePda && op.buffer == Some(inputs.buffer) && op.payload == p
    requires PayloadCertified(chain, Play(chain, ops).world.cluster, op.ncn, op.epochLength, EncodePayload(p), op.proof).Ok?
    ensures Upload(chunks, maxContent, payer).Ok? && Upload(chunks, maxContent, payer).value.Some?
    ensures Play(chain, ops + Staging(inputs, chunks, maxContent, payer) + [op])
         == History(StorySettled(Play(chain, ops).world, inputs, Upload(chunks, maxContent, payer).value.value),
                    Play(chain, ops).log + [op])
  {
    UploadSucceeds(chunks, maxContent, payer);
    StagingUploads(chain, ops, inputs, chunks, maxContent, payer);
    PlayAppend(chain, ops + Staging(inputs, chunks, maxContent, payer), op);
    StagedWorldSettles(chain, Play(chain, ops).world, inputs, p, Upload(chunks, maxContent, payer).value.value, op);
  }

  /** The whole way. After any run that leaves a state at the producer's
      transition with no buffer: stage the story in chunks, have the signers of an
      NCN sign the digest of a payload that tells it, aggregate, settle. Every
      write succeeds, the settle succeeds, and the state moves to the new root. */
  lemma StagedStorySettles(chain: Chain, ops: seq<Op>, inputs: ProducerInputs, p: SettlementPayload, chunks: seq<Bytes>,
                           maxContent: U32, payer: Pubkey, ncn: Pubkey, epochLength: U64, nonSigners: seq<nat>, bitmap: seq<bv8>,
                           order: seq<nat>, secrets: seq<Scalar>, signatures: seq<RawG1>, g2Keys: seq<Bytes64>)
    requires chain.suite.Lawful() && Tells(chain, inputs, p) && inputs.transitionIndex < U64_MAX
    requires GoodChunks(chunks, inputs.story, maxContent) && Unstaged(chain, Play(chain, ops).world, inputs)
    requires SigningRound(chain, ops, ncn, epochLength, chain.sha256(EncodePayload(p)),
                          nonSigners, bitmap, order, secrets, signatures, g2Keys)
    ensures Aggregate(chain.SuiteFor(ncn), signatures, g2Keys).Some?
    ensures Upload(chunks, maxContent, payer).Ok? && Upload(chunks, maxContent, payer).value.Some?
    ensures var h := Play(chain, ops);
            var aggregate := Aggregate(chain.SuiteFor(ncn), signatures, g2Keys).value;
            var settle := Settle(inputs.statePda, Some(inputs.buffer), ncn, epochLength, p,
                                 ProofOf(aggregate, bitmap, LoadNcn(h.world.cluster, ncn).value.generation));
            Play(chain, ops + Staging(inputs, chunks, maxContent, payer) + [settle])
              == History(StorySettled(h.world, inputs, Upload(chunks, maxContent, payer).value.value), h.log + [settle])
  {
    RoundCertifies(chain, ops, ncn, epochLength, chain.sha256(EncodePayload(p)), nonSigners, bitmap, order, secrets,
                   signatures, g2Keys);
    var proof := ProofOf(Aggregate(chain.SuiteFor(ncn), signatures, g2Keys).value, bitmap,
                         LoadNcn(Play(chain, ops).world.cluster, ncn).value.generation);
    CertifiedStorySettles(chain, ops, inputs, p, chunks, maxContent, payer,
                          Settle(inputs.statePda, Some(inputs.buffer), ncn, epochLength, p, proof));
  }
}
