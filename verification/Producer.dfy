/** The off-chain payload producer (llm_payload_producer/src/lib.rs) against the
    settlement program's validation. */
module Producer {
  import opened Prelude
  import opened Payload
  import opened Buffer
  import opened Settlement

  datatype ProducerInputs = ProducerInputs(
    story: Bytes,
    newRoot: Bytes32,
    transitionIndex: U64,
    statePda: Pubkey,
    ixDiscriminator: Bytes8,
    buffer: Pubkey)

  function StoryMetaOf(sha256: Bytes -> Bytes32, inputs: ProducerInputs): StoryMeta
    requires |inputs.story| <= U32_MAX
  {
    StoryMeta(sha256(inputs.story), inputs.buffer, |inputs.story|)
  }

  /** One Store and one story_meta event, unless the story's length does not
      fit its field. */
  function BuildPayload(sha256: Bytes -> Bytes32, inputs: ProducerInputs): Option<SettlementPayload> {
    if |inputs.story| > U32_MAX then None
    else
      Some(SettlementPayload(
             inputs.transitionIndex, inputs.statePda, inputs.ixDiscriminator,
             [Store(inputs.newRoot),
              Event(STORY_META_DISCRIMINANT, EncodeStoryMeta(StoryMetaOf(sha256, inputs)))]))
  }

  /** The account holds the story, up to hashing. */
  ghost predicate HoldsStory(chain: Chain, w: World, key: Pubkey, story: Bytes) {
    && key in w.buffers
    && |story| + BUFFER_TRAILER_LEN <= |w.buffers[key]|
    && chain.sha256(w.buffers[key][..|story|]) == chain.sha256(story)
  }

  /** A produced payload for the right buffer passes the settlement program's
      validation iff that buffer holds the story, and then yields the new root. */
  lemma ProducedPayloadValidIff(chain: Chain, w: World, inputs: ProducerInputs)
    requires |inputs.story| <= U32_MAX
    requires inputs.buffer == chain.bufferPda(inputs.statePda, inputs.transitionIndex)
    ensures BuildPayload(chain.sha256, inputs).Some?
    ensures var p := BuildPayload(chain.sha256, inputs).value;
            var r := Validated(chain, w, inputs.statePda, inputs.transitionIndex, p.updates, Some(inputs.buffer));
            && (r.Ok? <==> HoldsStory(chain, w, inputs.buffer, inputs.story))
            && (r.Ok? ==> r.value == inputs.newRoot)
            && AllEmittable(p.updates) && Encodable(p)
  {
    var p := BuildPayload(chain.sha256, inputs).value;
    StoryMetaRoundTrip(StoryMetaOf(chain.sha256, inputs));
    EventValidIff(chain, w, inputs);
    var us := p.updates;
    assert us[0] == Store(inputs.newRoot) && |us| == 2;
    assert ValidatedPrefix(chain, w, inputs.statePda, inputs.transitionIndex, us, Some(inputs.buffer), 0) == Ok(None);
    assert ValidatedPrefix(chain, w, inputs.statePda, inputs.transitionIndex, us, Some(inputs.buffer), 1)
        == Ok(Some(inputs.newRoot));
  }

  lemma EventValidIff(chain: Chain, w: World, inputs: ProducerInputs)
    requires |inputs.story| <= U32_MAX
    requires inputs.buffer == chain.bufferPda(inputs.statePda, inputs.transitionIndex)
    ensures EventVerified(chain, w, inputs.statePda, inputs.transitionIndex,
                          Event(STORY_META_DISCRIMINANT, EncodeStoryMeta(StoryMetaOf(chain.sha256, inputs))),
                          Some(inputs.buffer)).Ok?
       <==> HoldsStory(chain, w, inputs.buffer, inputs.story)
  {
    StoryMetaRoundTrip(StoryMetaOf(chain.sha256, inputs));
  }

  /** Staging the story in chunks and then settling the produced payload: every
      write succeeds and validation accepts the result. */
  lemma StagedStoryValidates(chain: Chain, w: World, inputs: ProducerInputs, chunks: seq<Bytes>, maxContent: U32, payer: Pubkey)
    requires inputs.buffer == chain.bufferPda(inputs.statePda, inputs.transitionIndex)
    requires chunks != [] && Flatten(chunks) == inputs.story && |inputs.story| <= maxContent <= MAX_BUFFER_CONTENT_LEN
    requires forall i :: 0 <= i < |chunks| ==> |chunks[i]| <= MAX_PERMITTED_DATA_INCREASE
    requires |chunks[0]| <= MAX_PERMITTED_DATA_INCREASE - BUFFER_TRAILER_LEN
    ensures BuildPayload(chain.sha256, inputs).Some?
    ensures Upload(chunks, maxContent, payer).Ok? && Upload(chunks, maxContent, payer).value.Some?
    ensures var staged := w.(buffers := w.buffers[inputs.buffer := Upload(chunks, maxContent, payer).value.value]);
            Validated(chain, staged, inputs.statePda, inputs.transitionIndex,
                      BuildPayload(chain.sha256, inputs).value.updates, Some(inputs.buffer)) == Ok(inputs.newRoot)
  {
    UploadSucceeds(chunks, maxContent, payer);
    var data := Upload(chunks, maxContent, payer).value.value;
    var staged := w.(buffers := w.buffers[inputs.buffer := data]);
    assert data[..|inputs.story|] == inputs.story;
    ProducedPayloadValidIff(chain, staged, inputs);
  }

  // ----- fixtures -----

  datatype Fixture = Fixture(story: Bytes, storySha256: Bytes32, payloadBytes: Bytes, digest: Bytes32)

  predicate EventConsistent(u: StateUpdate, storyHash: Bytes32, storyLen: nat) {
    u.Event? ==>
      && u.discriminant == STORY_META_DISCRIMINANT
      && var meta := DecodeStoryMeta(u.payload);
      meta.Some? && meta.value.storySha256 == storyHash && meta.value.len == storyLen
  }

  /** What re-verification of a fixture establishes. */
  ghost predicate FixtureConsistent(sha256: Bytes -> Bytes32, f: Fixture, p: SettlementPayload) {
    && DecodePayload(f.payloadBytes) == Some(p)
    && sha256(f.payloadBytes) == f.digest
    && sha256(f.story) == f.storySha256
    && StoreCount(p.updates, |p.updates|) == 1
    && EventsConsistent(p.updates, f.storySha256, |f.story|, |p.updates|)
    && exists i :: 0 <= i < |p.updates| && p.updates[i].Event?
  }

  function CountStores(updates: seq<StateUpdate>): nat {
    StoreCount(updates, |updates|)
  }

  ghost predicate EventsConsistent(updates: seq<StateUpdate>, storyHash: Bytes32, storyLen: nat, n: nat)
    requires n <= |updates|
  {
    forall k :: 0 <= k < n ==> EventConsistent(updates[k], storyHash, storyLen)
  }

  /** Every event checked; the last one's description, if there is an event. */
  method CheckEvents(updates: seq<StateUpdate>, storyHash: Bytes32, storyLen: nat) returns (found: Option<StoryMeta>)
    ensures found.Some? <==> EventsConsistent(updates, storyHash, storyLen, |updates|)
                             && exists i :: 0 <= i < |updates| && updates[i].Event?
    ensures found.Some? ==> Event(STORY_META_DISCRIMINANT, EncodeStoryMeta(found.value)) in updates
  {
    found := None;
    for i := 0 to |updates|
      invariant EventsConsistent(updates, storyHash, storyLen, i)
      invariant found.None? ==> forall k :: 0 <= k < i ==> updates[k].Store?
      invariant found.Some? ==> exists k :: 0 <= k < i && updates[k].Event?
      invariant found.Some? ==> Event(STORY_META_DISCRIMINANT, EncodeStoryMeta(found.value)) in updates
    {
      if updates[i].Event? {
        var meta := DecodeStoryMeta(updates[i].payload);
        if updates[i].discriminant != STORY_META_DISCRIMINANT || meta.None?
           || meta.value.storySha256 != storyHash || meta.value.len != storyLen {
          assert !EventConsistent(updates[i], storyHash, storyLen);
          return None;
        }
        found := meta;
        assert updates[i] == Event(STORY_META_DISCRIMINANT, EncodeStoryMeta(found.value));
      }
    }
  }

  method VerifyFixture(sha256: Bytes -> Bytes32, f: Fixture) returns (r: Option<(SettlementPayload, StoryMeta)>)
    ensures r.Some? <==> exists p :: FixtureConsistent(sha256, f, p)
    ensures r.Some? ==> FixtureConsistent(sha256, f, r.value.0)
                        && Event(STORY_META_DISCRIMINANT, EncodeStoryMeta(r.value.1)) in r.value.0.updates
  {
    var decoded := DecodePayload(f.payloadBytes);
    if decoded.None? {
      return None;
    }
    var p := decoded.value;
    var reencoded := EncodePayload(p);
    if reencoded != f.payloadBytes || sha256(f.payloadBytes) != f.digest || sha256(f.story) != f.storySha256
       || CountStores(p.updates) != 1 {
      return None;
    }
    var found := CheckEvents(p.updates, f.storySha256, |f.story|);
    if found.None? {
      return None;
    }
    assert FixtureConsistent(sha256, f, p);
    r := Some((p, found.value));
  }

  /** A consistent fixture settles against a buffer that starts with its story,
      provided its events name that buffer, which re-verification leaves open. */
  lemma ConsistentFixtureValidates(chain: Chain, w: World, f: Fixture, p: SettlementPayload, key: Pubkey)
    requires FixtureConsistent(chain.sha256, f, p)
    requires key == chain.bufferPda(p.statePda, p.transitionIndex) && HoldsStory(chain, w, key, f.story)
    ensures Validated(chain, w, p.statePda, p.transitionIndex, p.updates, Some(key)).Ok? <==>
            forall i :: 0 <= i < |p.updates| && p.updates[i].Event? ==>
              DecodeStoryMeta(p.updates[i].payload).Some? && DecodeStoryMeta(p.updates[i].payload).value.buffer == key
  {
    ValidatedIff(chain, w, p.statePda, p.transitionIndex, p.updates, Some(key));
    forall i | 0 <= i < |p.updates| && p.updates[i].Event?
      ensures EventVerified(chain, w, p.statePda, p.transitionIndex, p.updates[i], Some(key)).Ok? <==>
              DecodeStoryMeta(p.updates[i].payload).value.buffer == key
    {
      assert EventConsistent(p.updates[i], f.storySha256, |f.story|);
      StoryMetaRoundTrip(DecodeStoryMeta(p.updates[i].payload).value);
    }
  }
}
