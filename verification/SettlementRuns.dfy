/** Main results about runs of the settlement program. */
module SettlementRuns {
  import opened Prelude
  import opened Payload
  import opened Buffer
  import opened Settlement

  // ----- the replay nonce -----

  /** Transition indices settled into a state, in order. */
  function TransitionIndices(log: seq<Op>, state: Pubkey): seq<U64> {
    if log == [] then []
    else
      var before, op := TransitionIndices(log[..|log| - 1], state), log[|log| - 1];
      if op.Settle? && op.state == state then before + [op.payload.transitionIndex] else before
  }

  /** Each logged settle was bound to its state and carried one Store; its
      index is behind the state's count. */
  ghost predicate EntryOk(w: World, op: Op) {
    && op.Settle? && op.state in w.states
    && op.payload.statePda == op.state
    && op.payload.ixDiscriminator == SETTLE_DISCRIMINATOR
    && op.payload.transitionIndex < w.states[op.state].transitionCount
    && Encodable(op.payload)
    && StoreCount(op.payload.updates, |op.payload.updates|) == 1
  }

  ghost predicate EntriesOk(h: History) {
    forall i :: 0 <= i < |h.log| ==> EntryOk(h.world, h.log[i])
  }

  ghost predicate IndicesIncrease(log: seq<Op>) {
    forall i, j :: 0 <= i < j < |log| && log[i].Settle? && log[j].Settle? && log[i].state == log[j].state ==>
      log[i].payload.transitionIndex < log[j].payload.transitionIndex
  }

  /** The count is the number of settles, and the root the last one's Store. */
  ghost predicate StateOk(h: History, state: Pubkey, g: GkState) {
    && |TransitionIndices(h.log, state)| == g.transitionCount
    && (forall k :: 0 <= k < g.transitionCount ==> TransitionIndices(h.log, state)[k] == k)
    && (g.transitionCount == 0 ==> g.commitmentRoot == ZERO32)
    && (forall i :: 0 <= i < |h.log| && IsLastSettle(h.log[i], state, g) ==>
          Store(g.commitmentRoot) in h.log[i].payload.updates)
  }

  /** The settle that brought the state to its present count. */
  predicate IsLastSettle(op: Op, state: Pubkey, g: GkState) {
    op.Settle? && op.state == state && op.payload.transitionIndex == g.transitionCount - 1
  }

  ghost predicate HistoryOk(h: History) {
    && EntriesOk(h)
    && IndicesIncrease(h.log)
    && forall state :: state in h.world.states ==> StateOk(h, state, h.world.states[state])
  }

  lemma {:induction false} NoEntriesNoIndices(log: seq<Op>, state: Pubkey)
    requires forall i :: 0 <= i < |log| && log[i].Settle? ==> log[i].state != state
    ensures TransitionIndices(log, state) == []
  {
    if log != [] {
      NoEntriesNoIndices(log[..|log| - 1], state);
    }
  }

  /** The guards of a settle: bound to the state's next transition, certified,
      one Store, and events that pass their checks and can go out. */
  ghost predicate MaySettle(chain: Chain, w: World, op: Op)
    requires op.Settle?
  {
    var p := op.payload;
    && op.state in w.states && w.states[op.state].transitionCount < U64_MAX
    && p.ixDiscriminator == SETTLE_DISCRIMINATOR && p.statePda == op.state
    && p.transitionIndex == w.states[op.state].transitionCount && Encodable(p)
    && NcnVerdict(chain, w.cluster, op.ncn, op.epochLength, SettleCertificate(chain, EncodePayload(p), op.proof)).Ok?
    && StoreCount(p.updates, |p.updates|) == 1
    && EventsVerified(chain, w, op.state, p.transitionIndex, p.updates, op.buffer, |p.updates|)
    && AllEmittable(p.updates)
  }

  lemma DiffAppliesIff(chain: Chain, w: World, state: Pubkey, buffer: Option<Pubkey>, p: SettlementPayload)
    requires state in w.states
    ensures DiffApplied(chain, w, state, buffer, p).Ok? <==>
            && w.states[state].transitionCount < U64_MAX
            && StoreCount(p.updates, |p.updates|) == 1
            && EventsVerified(chain, w, state, p.transitionIndex, p.updates, buffer, |p.updates|)
            && AllEmittable(p.updates)
  {
    ValidatedIff(chain, w, state, p.transitionIndex, p.updates, buffer);
    EmittedPrefixIff(chain, p.updates, |p.updates|);
  }

  /** A settle succeeds exactly under its guards. */
  lemma SettleSucceedsIff(chain: Chain, w: World, op: Op)
    requires op.Settle?
    ensures Perform(chain, w, op).Ok? <==> MaySettle(chain, w, op)
  {
    if op.state in w.states {
      DiffAppliesIff(chain, w, op.state, op.buffer, op.payload);
    }
  }

  /** What a successful settle does. */
  lemma SettleEffect(chain: Chain, w: World, op: Op)
    requires op.Settle? && Perform(chain, w, op).Ok?
    ensures op.state in w.states && op.payload.transitionIndex == w.states[op.state].transitionCount < U64_MAX
    ensures var g := w.states[op.state];
            var after := Perform(chain, w, op).value;
            && after.buffers == w.buffers && after.cluster == w.cluster
            && after.states.Keys == w.states.Keys
            && (forall s :: s in w.states && s != op.state ==> after.states[s] == w.states[s])
            && after.states[op.state] == g.(transitionCount := g.transitionCount + 1,
                                            commitmentRoot := after.states[op.state].commitmentRoot)
            && Store(after.states[op.state].commitmentRoot) in op.payload.updates
            && EntryOk(after, op)
            && NcnVerdict(chain, w.cluster, op.ncn, op.epochLength,
                          SettleCertificate(chain, EncodePayload(op.payload), op.proof)).Ok?
            && EventsVerified(chain, w, op.state, op.payload.transitionIndex, op.payload.updates, op.buffer, |op.payload.updates|)
  {
    ValidatedIff(chain, w, op.state, op.payload.transitionIndex, op.payload.updates, op.buffer);
  }

  lemma SettleKeeps(chain: Chain, h: History, op: Op)
    requires HistoryOk(h) && op.Settle? && Perform(chain, h.world, op).Ok?
    ensures HistoryOk(Advance(chain, h, op))
  {
    SettleEffect(chain, h.world, op);
    AppendedEntriesOk(h, op, Perform(chain, h.world, op).value);
    AppendedStatesOk(chain, h, op, Perform(chain, h.world, op).value);
  }

  lemma AppendedEntriesOk(h: History, op: Op, w: World)
    requires EntriesOk(h) && IndicesIncrease(h.log) && EntryOk(w, op)
    requires op.state in h.world.states && op.payload.transitionIndex == h.world.states[op.state].transitionCount
    requires forall s :: s in h.world.states ==>
               s in w.states && w.states[s].transitionCount >= h.world.states[s].transitionCount
    ensures EntriesOk(History(w, h.log + [op])) && IndicesIncrease(h.log + [op])
  {
    var log := h.log + [op];
    forall i | 0 <= i < |log| ensures EntryOk(w, log[i]) {
      if i < |h.log| {
        EntryStays(h.world, w, h.log[i]);
      }
    }
    forall i | 0 <= i < |h.log| && h.log[i].state == op.state
      ensures h.log[i].payload.transitionIndex < op.payload.transitionIndex
    {
      assert EntryOk(h.world, h.log[i]);
    }
  }

  lemma AppendedStatesOk(chain: Chain, h: History, op: Op, w: World)
    requires HistoryOk(h) && op.Settle? && Perform(chain, h.world, op) == Ok(w)
    ensures forall state :: state in w.states ==> StateOk(History(w, h.log + [op]), state, w.states[state])
  {
    SettleEffect(chain, h.world, op);
    forall state | state in w.states ensures StateOk(History(w, h.log + [op]), state, w.states[state]) {
      SettledStateOk(chain, h, op, w.states[state], state);
    }
  }

  /** An entry stays good while its state stays and its count only grows. */
  lemma EntryStays(w: World, after: World, op: Op)
    requires EntryOk(w, op)
    requires op.state in after.states && after.states[op.state].transitionCount >= w.states[op.state].transitionCount
    ensures EntryOk(after, op)
  {}

  lemma SettledStateOk(chain: Chain, h: History, op: Op, g: GkState, state: Pubkey)
    requires op.Settle? && op.state in h.world.states && state in h.world.states
    requires StateOk(h, state, h.world.states[state]) && EntriesOk(h)
    requires op.payload.transitionIndex == h.world.states[op.state].transitionCount
    requires if state == op.state then
               g.transitionCount == h.world.states[state].transitionCount + 1 && Store(g.commitmentRoot) in op.payload.updates
             else g == h.world.states[state]
    ensures StateOk(h.(log := h.log + [op]), state, g)
  {
    assert (h.log + [op])[..|h.log|] == h.log;
    forall i | 0 <= i < |h.log| && IsLastSettle(h.log[i], state, g) ensures Store(g.commitmentRoot) in h.log[i].payload.updates {
      assert EntryOk(h.world, h.log[i]);
      assert IsLastSettle(h.log[i], state, h.world.states[state]);
    }
  }

  /** Instructions other than settle add no entry, and touch the states only by
      creating one with count zero. */
  lemma OtherOpEffect(chain: Chain, h: History, op: Op)
    requires !op.Settle?
    ensures var after := Advance(chain, h, op);
            && after.log == h.log
            && (forall s :: s in h.world.states ==> s in after.world.states && after.world.states[s] == h.world.states[s])
            && (forall s :: s in after.world.states && s !in h.world.states ==>
                  after.world.states[s].transitionCount == 0 && after.world.states[s].commitmentRoot == ZERO32)
  {}

  lemma FreshStateOk(chain: Chain, h: History, after: History, state: Pubkey)
    requires EntriesOk(h) && after.log == h.log && state !in h.world.states && state in after.world.states
    requires after.world.states[state].transitionCount == 0 && after.world.states[state].commitmentRoot == ZERO32
    ensures StateOk(after, state, after.world.states[state])
  {
    forall i | 0 <= i < |h.log| ensures h.log[i].state != state {
      assert EntryOk(h.world, h.log[i]);
    }
    NoEntriesNoIndices(h.log, state);
  }

  lemma OtherOpKeeps(chain: Chain, h: History, op: Op)
    requires HistoryOk(h) && !op.Settle?
    ensures HistoryOk(Advance(chain, h, op))
  {
    OtherOpEffect(chain, h, op);
    SameLogKeeps(chain, h, Advance(chain, h, op));
  }

  lemma SameLogKeeps(chain: Chain, h: History, after: History)
    requires HistoryOk(h) && after.log == h.log
    requires forall s :: s in h.world.states ==> s in after.world.states && after.world.states[s] == h.world.states[s]
    requires forall s :: s in after.world.states && s !in h.world.states ==>
               after.world.states[s].transitionCount == 0 && after.world.states[s].commitmentRoot == ZERO32
    ensures HistoryOk(after)
  {
    forall i | 0 <= i < |after.log| ensures EntryOk(after.world, after.log[i]) {
      EntryStays(h.world, after.world, h.log[i]);
    }
    forall state | state in after.world.states ensures StateOk(after, state, after.world.states[state]) {
      if state in h.world.states {
        assert StateOk(h, state, h.world.states[state]);
      } else {
        FreshStateOk(chain, h, after, state);
      }
    }
  }

  lemma {:induction false} PlayKeeps(chain: Chain, ops: seq<Op>)
    ensures HistoryOk(Play(chain, ops))
  {
    if ops != [] {
      var before, op := ops[..|ops| - 1], ops[|ops| - 1];
      PlayKeeps(chain, before);
      if op.Settle? {
        if Perform(chain, Play(chain, before).world, op).Ok? {
          SettleKeeps(chain, Play(chain, before), op);
        }
      } else {
        OtherOpKeeps(chain, Play(chain, before), op);
      }
    }
  }

  /** In every run each state's settled transition indices are exactly
      0, 1, ..., n - 1, its count is n, and its root is the single Store of the
      last settled payload (zero before the first). */
  lemma SettlementRuns(chain: Chain, ops: seq<Op>, state: Pubkey)
    requires state in Play(chain, ops).world.states
    ensures var h := Play(chain, ops);
            var g, indices := h.world.states[state], TransitionIndices(h.log, state);
            && |indices| == g.transitionCount
            && (forall k :: 0 <= k < |indices| ==> indices[k] == k)
            && (g.transitionCount == 0 ==> g.commitmentRoot == ZERO32)
            && (forall i :: 0 <= i < |h.log| && IsLastSettle(h.log[i], state, g) ==>
                  && StoreCount(h.log[i].payload.updates, |h.log[i].payload.updates|) == 1
                  && Store(g.commitmentRoot) in h.log[i].payload.updates)
            && (forall i :: 0 <= i < |h.log| ==> EntryOk(h.world, h.log[i]))
  {
    PlayKeeps(chain, ops);
  }

  /** One digest settles at most once, across all states, as long as hashing
      tells the settled encodings apart. */
  lemma DigestSettlesOnce(chain: Chain, ops: seq<Op>, i: nat, j: nat)
    requires i < j < |Play(chain, ops).log|
    requires var log := Play(chain, ops).log;
             log[i].Settle? && log[j].Settle? &&
             (chain.sha256(EncodePayload(log[i].payload)) == chain.sha256(EncodePayload(log[j].payload)) ==>
                EncodePayload(log[i].payload) == EncodePayload(log[j].payload))
    ensures var log := Play(chain, ops).log;
            chain.sha256(EncodePayload(log[i].payload)) != chain.sha256(EncodePayload(log[j].payload))
  {
    PlayKeeps(chain, ops);
    var h := Play(chain, ops);
    assert EntryOk(h.world, h.log[i]) && EntryOk(h.world, h.log[j]);
    if EncodePayload(h.log[i].payload) == EncodePayload(h.log[j].payload) {
      EncodingInjective(h.log[i].payload, h.log[j].payload);
      assert false;
    }
  }

  /** Every logged settle is an operation of the run, which succeeded when its
      turn came. */
  lemma {:induction false} LoggedAt(chain: Chain, ops: seq<Op>, i: nat) returns (k: nat)
    requires i < |Play(chain, ops).log|
    ensures k < |ops| && ops[k] == Play(chain, ops).log[i] && ops[k].Settle?
    ensures Perform(chain, Play(chain, ops[..k]).world, ops[k]).Ok?
  {
    var n := |ops| - 1;
    if i < |Play(chain, ops[..n]).log| {
      k := LoggedAt(chain, ops[..n], i);
      assert ops[..n][..k] == ops[..k];
    } else {
      k := n;
    }
  }

  // ----- buffers -----

  ghost predicate IsBuffer(data: Bytes) {
    exists content: Bytes, payer: Pubkey, maxContent: U32 :: Refines(data, content, payer, maxContent)
  }

  ghost predicate BuffersOk(w: World) {
    forall key :: key in w.buffers ==> IsBuffer(w.buffers[key])
  }

  /** No other transition's buffer is reached through this one's address by the
      operation: the one thing asked of address derivation. */
  predicate OpDistinct(chain: Chain, op: Op, state: Pubkey, index: U64) {
    (op.WriteBuffer? || op.CloseBuffer?) && chain.bufferPda(op.state, op.index) == chain.bufferPda(state, index) ==>
      op.state == state && op.index == index
  }

  predicate OpsDistinct(chain: Chain, ops: seq<Op>, state: Pubkey, index: U64) {
    forall k :: 0 <= k < |ops| ==> OpDistinct(chain, ops[k], state, index)
  }

  predicate HasSettled(w: World, state: Pubkey, index: U64) {
    state in w.states && index < w.states[state].transitionCount
  }

  /** A write keeps the shape and the trailer of a buffer. */
  lemma WriteKeepsTrailer(buffer: Option<Bytes>, args: WriteArgs, writer: Pubkey)
    requires buffer.Some? ==> IsBuffer(buffer.value)
    requires Written(buffer, args, writer).Ok?
    ensures IsBuffer(Written(buffer, args, writer).value)
    ensures buffer.Some? ==> ReadTrailer(Written(buffer, args, writer).value) == ReadTrailer(buffer.value)
  {
    match buffer
    case None => WriteCreates(args, writer);
    case Some(data) =>
      var content: Bytes, payer: Pubkey, maxContent: U32 :| Refines(data, content, payer, maxContent);
      WriteToExisting(data, content, payer, maxContent, args, writer);
      RefinesReadsTrailer(data, content, payer, maxContent);
      RefinesReadsTrailer(Written(buffer, args, writer).value, WriteAt(content, args.offset, args.bytes), payer, maxContent);
  }

  /** One step, seen from one buffer: it appears only before its transition has
      settled, its trailer never changes, it is closed only afterwards and by
      the payer it records, and once settled its bytes are fixed. */
  predicate BufferStep(chain: Chain, w: World, after: World, op: Op, state: Pubkey, index: U64) {
    var key := chain.bufferPda(state, index);
    && (HasSettled(w, state, index) ==> HasSettled(after, state, index))
    && match (BufferAt(w, key), BufferAt(after, key))
       case (None, None) => true
       case (None, Some(_)) => !HasSettled(w, state, index)
       case (Some(before), Some(data)) =>
         ReadTrailer(data) == ReadTrailer(before) && (HasSettled(w, state, index) ==> data == before)
       case (Some(before), None) =>
         && HasSettled(w, state, index)
         && op.CloseBuffer? && op.state == state && op.index == index && op.account == key
         && ReadTrailer(before).Ok? && ReadTrailer(before).value.0 == op.payer
  }

  lemma WriteBufferStep(chain: Chain, w: World, op: Op, state: Pubkey, index: U64)
    requires BuffersOk(w) && op.WriteBuffer? && Perform(chain, w, op).Ok?
    ensures BuffersOk(Perform(chain, w, op).value)
    ensures OpDistinct(chain, op, state, index) ==> BufferStep(chain, w, Perform(chain, w, op).value, op, state, index)
  {
    WriteKeepsTrailer(BufferAt(w, op.account), op.args, op.payer);
  }

  lemma CloseBufferStep(chain: Chain, w: World, op: Op, state: Pubkey, index: U64)
    requires BuffersOk(w) && op.CloseBuffer? && Perform(chain, w, op).Ok?
    ensures BuffersOk(Perform(chain, w, op).value)
    ensures OpDistinct(chain, op, state, index) ==> BufferStep(chain, w, Perform(chain, w, op).value, op, state, index)
  {}

  /** Every step keeps buffers well formed and treats as described above each
      buffer whose address it reaches only as its own. */
  lemma StepBuffer(chain: Chain, h: History, op: Op, state: Pubkey, index: U64)
    requires BuffersOk(h.world)
    ensures BuffersOk(Advance(chain, h, op).world)
    ensures OpDistinct(chain, op, state, index) ==>
              BufferStep(chain, h.world, Advance(chain, h, op).world, op, state, index)
  {
    if Perform(chain, h.world, op).Ok? {
      match op
      case Settle(_, _, _, _, _, _) => SettleEffect(chain, h.world, op);
      case WriteBuffer(_, _, _, _, _) => WriteBufferStep(chain, h.world, op, state, index);
      case CloseBuffer(_, _, _, _) => CloseBufferStep(chain, h.world, op, state, index);
      case _ => OtherOpKeepsBuffers(chain, h.world, op);
    }
  }

  lemma OtherOpKeepsBuffers(chain: Chain, w: World, op: Op)
    requires !op.Settle? && !op.WriteBuffer? && !op.CloseBuffer? && Perform(chain, w, op).Ok?
    ensures Perform(chain, w, op).value.buffers == w.buffers
    ensures forall s :: s in w.states ==> s in Perform(chain, w, op).value.states && Perform(chain, w, op).value.states[s] == w.states[s]
  {}

  lemma {:induction false} PlayBuffersOk(chain: Chain, ops: seq<Op>)
    ensures BuffersOk(Play(chain, ops).world)
  {
    if ops != [] {
      PlayBuffersOk(chain, ops[..|ops| - 1]);
      StepBuffer(chain, Play(chain, ops[..|ops| - 1]), ops[|ops| - 1], DEFAULT_PUBKEY, 0);
    }
  }

  lemma PlayBufferStep(chain: Chain, ops: seq<Op>, j: nat, state: Pubkey, index: U64)
    requires 0 < j <= |ops| && OpDistinct(chain, ops[j - 1], state, index)
    ensures BufferStep(chain, Play(chain, ops[..j - 1]).world, Play(chain, ops[..j]).world, ops[j - 1], state, index)
  {
    assert ops[..j][..j - 1] == ops[..j - 1];
    PlayBuffersOk(chain, ops[..j - 1]);
    StepBuffer(chain, Play(chain, ops[..j - 1]), ops[j - 1], state, index);
  }

  /** The life of a buffer, from a moment i at which it exists to any later
      moment j: it keeps its payer and capacity; if its transition had settled
      by i it also keeps its bytes; and it can be gone only because the
      transition has settled. */
  lemma {:induction false} BufferLifeCycle(chain: Chain, ops: seq<Op>, i: nat, j: nat, state: Pubkey, index: U64)
    requires OpsDistinct(chain, ops, state, index) && i <= j <= |ops|
    requires BufferAt(Play(chain, ops[..i]).world, chain.bufferPda(state, index)).Some?
    ensures var key := chain.bufferPda(state, index);
            var w, later := Play(chain, ops[..i]).world, Play(chain, ops[..j]).world;
            match BufferAt(later, key)
            case None => HasSettled(later, state, index)
            case Some(data) =>
              && ReadTrailer(data) == ReadTrailer(BufferAt(w, key).value)
              && (HasSettled(w, state, index) ==> data == BufferAt(w, key).value)
    ensures HasSettled(Play(chain, ops[..i]).world, state, index) ==> HasSettled(Play(chain, ops[..j]).world, state, index)
    decreases j
  {
    if i < j {
      BufferLifeCycle(chain, ops, i, j - 1, state, index);
      PlayBufferStep(chain, ops, j, state, index);
    }
  }

  /** A settled transition without a buffer never gets one again. */
  lemma {:induction false} NeverRecreated(chain: Chain, ops: seq<Op>, i: nat, j: nat, state: Pubkey, index: U64)
    requires OpsDistinct(chain, ops, state, index) && i <= j <= |ops|
    requires HasSettled(Play(chain, ops[..i]).world, state, index)
    requires BufferAt(Play(chain, ops[..i]).world, chain.bufferPda(state, index)).None?
    ensures HasSettled(Play(chain, ops[..j]).world, state, index)
    ensures BufferAt(Play(chain, ops[..j]).world, chain.bufferPda(state, index)).None?
    decreases j
  {
    if i < j {
      NeverRecreated(chain, ops, i, j - 1, state, index);
      PlayBufferStep(chain, ops, j, state, index);
    }
  }

  /** A buffer that has disappeared between i and j was closed, after its
      transition settled, by the payer it recorded. */
  lemma {:induction false} OnlyPayerCloses(chain: Chain, ops: seq<Op>, i: nat, j: nat, state: Pubkey, index: U64) returns (k: nat)
    requires OpsDistinct(chain, ops, state, index) && i <= j <= |ops|
    requires BufferAt(Play(chain, ops[..i]).world, chain.bufferPda(state, index)).Some?
    requires BufferAt(Play(chain, ops[..j]).world, chain.bufferPda(state, index)).None?
    ensures i <= k < j && HasSettled(Play(chain, ops[..k]).world, state, index)
    ensures var trailer := ReadTrailer(BufferAt(Play(chain, ops[..i]).world, chain.bufferPda(state, index)).value);
            trailer.Ok? && ops[k] == CloseBuffer(state, chain.bufferPda(state, index), index, trailer.value.0)
    decreases j
  {
    PlayBufferStep(chain, ops, j, state, index);
    if BufferAt(Play(chain, ops[..j - 1]).world, chain.bufferPda(state, index)).None? {
      k := OnlyPayerCloses(chain, ops, i, j - 1, state, index);
    } else {
      k := j - 1;
      BufferLifeCycle(chain, ops, i, j - 1, state, index);
    }
  }

  // ----- settled stories -----

  predicate IsStoryMeta(u: StateUpdate) {
    u.Event? && u.discriminant == STORY_META_DISCRIMINANT
  }

  /** The event describes this transition's buffer, and the buffer, while it
      exists, holds the story it describes. */
  ghost predicate StoryHeld(chain: Chain, w: World, state: Pubkey, index: U64, event: Bytes) {
    && DecodeStoryMeta(event).Some?
    && var meta := DecodeStoryMeta(event).value;
    && meta.buffer == chain.bufferPda(state, index)
    && (meta.buffer in w.buffers ==>
          && meta.len + BUFFER_TRAILER_LEN <= |w.buffers[meta.buffer]|
          && chain.sha256(w.buffers[meta.buffer][..meta.len]) == meta.storySha256)
  }

  ghost predicate StoriesHeld(chain: Chain, w: World, op: Op)
    requires op.Settle?
  {
    forall i :: 0 <= i < |op.payload.updates| && IsStoryMeta(op.payload.updates[i]) ==>
      StoryHeld(chain, w, op.state, op.payload.transitionIndex, op.payload.updates[i].payload)
  }

  ghost predicate AllStoriesHeld(chain: Chain, h: History) {
    forall i :: 0 <= i < |h.log| && h.log[i].Settle? ==> StoriesHeld(chain, h.world, h.log[i])
  }

  lemma VerifiedStoryHeld(chain: Chain, w: World, after: World, state: Pubkey, index: U64, u: StateUpdate,
                          buffer: Option<Pubkey>)
    requires after.buffers == w.buffers && IsStoryMeta(u) && EventVerified(chain, w, state, index, u, buffer).Ok?
    ensures StoryHeld(chain, after, state, index, u.payload)
  {}

  lemma SettledStoriesHeld(chain: Chain, w: World, op: Op)
    requires op.Settle? && Perform(chain, w, op).Ok?
    ensures StoriesHeld(chain, Perform(chain, w, op).value, op)
  {
    SettleEffect(chain, w, op);
    VerifiedStoriesHeld(chain, w, Perform(chain, w, op).value, op);
  }

  lemma VerifiedStoriesHeld(chain: Chain, w: World, after: World, op: Op)
    requires op.Settle? && after.buffers == w.buffers
    requires EventsVerified(chain, w, op.state, op.payload.transitionIndex, op.payload.updates, op.buffer, |op.payload.updates|)
    ensures StoriesHeld(chain, after, op)
  {
    forall i | 0 <= i < |op.payload.updates| && IsStoryMeta(op.payload.updates[i])
      ensures StoryHeld(chain, after, op.state, op.payload.transitionIndex, op.payload.updates[i].payload)
    {
      VerifiedStoryHeld(chain, w, after, op.state, op.payload.transitionIndex, op.payload.updates[i], op.buffer);
    }
  }

  lemma StoriesStayHeld(chain: Chain, h: History, op: Op, entry: Op)
    requires BuffersOk(h.world) && EntryOk(h.world, entry)
    requires OpDistinct(chain, op, entry.state, entry.payload.transitionIndex)
    requires StoriesHeld(chain, h.world, entry)
    ensures StoriesHeld(chain, Advance(chain, h, op).world, entry)
  {
    StepBuffer(chain, h, op, entry.state, entry.payload.transitionIndex);
    var after := Advance(chain, h, op).world;
    forall i | 0 <= i < |entry.payload.updates| && IsStoryMeta(entry.payload.updates[i])
      ensures StoryHeld(chain, after, entry.state, entry.payload.transitionIndex, entry.payload.updates[i].payload)
    {
      assert StoryHeld(chain, h.world, entry.state, entry.payload.transitionIndex, entry.payload.updates[i].payload);
    }
  }

  /** Operations reach the buffer of a settled transition only as its own. */
  predicate SettledDistinct(chain: Chain, ops: seq<Op>) {
    forall k :: 0 <= k < |ops| && ops[k].Settle? ==> OpsDistinct(chain, ops, ops[k].state, ops[k].payload.transitionIndex)
  }

  /** In every run every settled story_meta event names its transition's buffer,
      and until that buffer is closed its first `len` bytes hash to the event's
      story hash. */
  lemma {:induction false} SettledStoriesStay(chain: Chain, ops: seq<Op>)
    requires SettledDistinct(chain, ops)
    ensures AllStoriesHeld(chain, Play(chain, ops))
  {
    if ops != [] {
      var n := |ops| - 1;
      var h, op := Play(chain, ops[..n]), ops[n];
      assert SettledDistinct(chain, ops[..n]) by {
        assert forall k :: 0 <= k < n ==> ops[..n][k] == ops[k];
      }
      SettledStoriesStay(chain, ops[..n]);
      PlayKeeps(chain, ops[..n]);
      PlayBuffersOk(chain, ops[..n]);
      forall i | 0 <= i < |h.log| && h.log[i].Settle? ensures StoriesHeld(chain, Advance(chain, h, op).world, h.log[i]) {
        var k := LoggedAt(chain, ops[..n], i);
        assert OpsDistinct(chain, ops, ops[k].state, ops[k].payload.transitionIndex);
        StoriesStayHeld(chain, h, op, h.log[i]);
      }
      if op.Settle? && Perform(chain, h.world, op).Ok? {
        SettledStoriesHeld(chain, h.world, op);
      }
    }
  }
}
