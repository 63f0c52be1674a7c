/**
 The settlement program as a state machine (settlement_program/src): settlement
 states with a replay nonce and one commitment slot, and the buffers staged for
 their transitions. A failing instruction leaves the world as it was.
 */
module Settlement {
  import opened Prelude
  import opened NcnErrors
  import opened SettlementErrors
  import opened Bls
  import opened SnapshotAccount
  import opened NcnProgram
  import opened Certificate
  import opened Payload
  import opened Buffer

  datatype GkState = GkState(
    ncn: Pubkey,
    appId: Bytes32,
    commitmentRoot: Bytes32,
    transitionCount: U64,
    simProfileId: Bytes32,
    envCommitment: Bytes32)

  /** One NCN's accounts: its program state and the two values of its
      configuration that a certificate is checked against. */
  datatype NcnAccount = NcnAccount(state: SoundState, consensusThresholdBps: U16, validSlotsAfterConsensus: U64)

  /** What the settlement program only reads: the clock and every NCN. */
  datatype Cluster = Cluster(clock: U64, ncns: map<Pubkey, NcnAccount>)

  /** The settlement program's own accounts, by address, and the rest. */
  datatype World = World(states: map<Pubkey, GkState>, buffers: map<Pubkey, Bytes>, cluster: Cluster)

  /** Hashing, address derivation and the certificate suite. Proofs of
      possession are bound to the NCN they are made for. */
  datatype Chain = Chain(
    sha256: Bytes -> Bytes32,
    statePda: (Pubkey, Bytes32) -> Pubkey,
    bufferPda: (Pubkey, U64) -> Pubkey,
    eventAuthority: Pubkey,
    popDigest: (Pubkey, Pubkey, Bytes32) -> Bytes32,
    suite: Suite)
  {
    function SuiteFor(ncn: Pubkey): Suite {
      var digest := popDigest;
      suite.(popDigest := (operator: Pubkey, g1Key: Bytes32) => digest(ncn, operator, g1Key))
    }
  }

  /** The certificate arguments of a settle. */
  datatype Proof = Proof(
    aggregatedG2: Bytes64,
    aggregatedSignature: Bytes32,
    bitmap: seq<bv8>,
    expectedGeneration: U64)

  /** Clock ticks come separately, to all NCNs at once. */
  type NcnCall = ins: Instruction | !ins.Tick? witness ReallocSnapshot(0)

  /** `buffer` and `ncn` are the accounts the caller passes, `epochLength` is the
      restaking configuration's. */
  datatype Op =
    | AdvanceClock(slots: U64)
    | OpenNcn(ncn: Pubkey, thresholdBps: U16, validSlots: U64)
    | SetNcnParameters(ncn: Pubkey, thresholdBps: U16, validSlots: U64)
    | NcnInstruction(ncn: Pubkey, call: NcnCall)
    | InitializeState(ncn: Pubkey, appId: Bytes32, simProfileId: Bytes32, envCommitment: Bytes32)
    | WriteBuffer(state: Pubkey, account: Pubkey, index: U64, args: WriteArgs, payer: Pubkey)
    | Settle(state: Pubkey, buffer: Option<Pubkey>, ncn: Pubkey, epochLength: U64, payload: SettlementPayload, proof: Proof)
    | CloseBuffer(state: Pubkey, account: Pubkey, index: U64, payer: Pubkey)

  const SETTLE_DISCRIMINATOR: Bytes8 := [0x35, 0xf8, 0xe2, 0x1f, 0x3e, 0xe1, 0x4e, 0xae]
  const INITIALIZE_STATE_DISCRIMINATOR: Bytes8 := [0xce, 0xcc, 0x93, 0x83, 0x20, 0x31, 0xf7, 0x2a]
  const WRITE_BUFFER_DISCRIMINATOR: Bytes8 := [0x4d, 0x1a, 0xa9, 0x4f, 0x1d, 0x0c, 0x02, 0x21]
  const CLOSE_BUFFER_DISCRIMINATOR: Bytes8 := [0x9c, 0xf0, 0x8a, 0x7a, 0x98, 0xf5, 0x99, 0x96]
  const STORY_META_DISCRIMINANT: Bytes8 := [0xcc, 0xa7, 0x55, 0xe2, 0xa2, 0xa2, 0x5b, 0xed]
  const MAX_EVENT_CPI_DATA_LEN: nat := 10 * 1024

  const EMPTY_WORLD: World := World(map[], map[], Cluster(0, map[]))

  // ----- the other program's accounts -----

  function ClockAdvanced(chain: Chain, c: Cluster, slots: U64): Result<Cluster, SettlementError> {
    if c.clock + slots > U64_MAX then Err(SettlementError.ArithmeticOverflow)
    else
      Ok(Cluster(c.clock + slots,
                 map n | n in c.ncns :: c.ncns[n].(state := Step(chain.SuiteFor(n), c.ncns[n].state, Tick(slots)))))
  }

  /** A new NCN's accounts, as the clock stands. */
  function NcnOpened(c: Cluster, ncn: Pubkey, thresholdBps: U16, validSlots: U64): Result<Cluster, SettlementError> {
    if ncn in c.ncns then Err(AccountAlreadyInitialized)
    else Ok(c.(ncns := c.ncns[ncn := NcnAccount(GENESIS.(clock := c.clock), thresholdBps, validSlots)]))
  }

  function NcnParametersSet(c: Cluster, ncn: Pubkey, thresholdBps: U16, validSlots: U64): Result<Cluster, SettlementError> {
    if ncn !in c.ncns then Err(InvalidAccountOwner)
    else Ok(c.(ncns := c.ncns[ncn := c.ncns[ncn].(consensusThresholdBps := thresholdBps,
                                                   validSlotsAfterConsensus := validSlots)]))
  }

  function NcnStepped(chain: Chain, c: Cluster, ncn: Pubkey, call: NcnCall): Result<Cluster, SettlementError> {
    if ncn !in c.ncns then Err(InvalidAccountOwner)
    else
      match Execute(chain.SuiteFor(ncn), c.ncns[ncn].state, call)
      case Err(e) => Err(NcnFailed(e))
      case Ok(after) => Ok(c.(ncns := c.ncns[ncn := c.ncns[ncn].(state := after)]))
  }

  /** The accounts of `ncn` as verification loads them. */
  function LoadNcn(c: Cluster, ncn: Pubkey): Result<SnapshotView, NcnError> {
    if ncn !in c.ncns then Err(AccountNotFound) else LoadSnapshot(c.ncns[ncn].state)
  }

  /** The certificate check against the accounts of one NCN. */
  function NcnVerdict(chain: Chain, c: Cluster, ncn: Pubkey, epochLength: U64, cert: Certificate): Result<(), NcnError> {
    var v :- LoadNcn(c, ncn);
    var account := c.ncns[ncn];
    VerifyResult(chain.SuiteFor(ncn), v,
                 VerifyConfig(account.consensusThresholdBps, account.validSlotsAfterConsensus, epochLength), c.clock, cert)
  }

  // ----- creating states, writing and closing buffers -----

  function StateInitialized(chain: Chain, w: World, ncn: Pubkey, appId: Bytes32, sim: Bytes32, env: Bytes32)
    : Result<World, SettlementError>
  {
    var key := chain.statePda(ncn, appId);
    if key in w.states then Err(AccountAlreadyInitialized)
    else Ok(w.(states := w.states[key := GkState(ncn, appId, ZERO32, 0, sim, env)]))
  }

  function BufferAt(w: World, key: Pubkey): Option<Bytes> {
    if key in w.buffers then Some(w.buffers[key]) else None
  }

  function BufferWritten(chain: Chain, w: World, state: Pubkey, account: Pubkey, index: U64, args: WriteArgs, payer: Pubkey)
    : Result<World, SettlementError>
  {
    if state !in w.states then Err(InvalidAccountOwner)
    else if index < w.states[state].transitionCount then Err(InvalidTransitionIndex)
    else if account != chain.bufferPda(state, index) then Err(BufferKeyMismatch)
    else
      var data :- Written(BufferAt(w, account), args, payer);
      Ok(w.(buffers := w.buffers[account := data]))
  }

  /** Does the program own the account at this address? */
  predicate Owned(w: World, key: Pubkey) {
    key in w.buffers || key in w.states
  }

  function BufferClosed(chain: Chain, w: World, state: Pubkey, account: Pubkey, index: U64, payer: Pubkey)
    : Result<World, SettlementError>
  {
    if state !in w.states || !Owned(w, account) then Err(InvalidAccountOwner)
    else if account != chain.bufferPda(state, index) then Err(BufferKeyMismatch)
    else if index >= w.states[state].transitionCount then Err(BufferNotSettled)
    else if account !in w.buffers then Err(InvalidBufferBounds)
    else
      var trailer :- ReadTrailer(w.buffers[account]);
      if trailer.0 != payer then Err(InvalidBufferPayer)
      else Ok(w.(buffers := w.buffers - {account}))
  }

  // ----- settling -----

  /** A story_meta event must describe the staged buffer of this transition. */
  function StoryMetaVerified(chain: Chain, w: World, state: Pubkey, index: U64, event: Bytes, buffer: Option<Pubkey>)
    : Result<(), SettlementError>
  {
    match DecodeStoryMeta(event)
    case None => Err(MalformedStoryMeta)
    case Some(meta) =>
      match buffer
      case None => Err(MissingBufferAccount)
      case Some(key) =>
        if key !in w.buffers then
          Err(if key in w.states then BufferKeyMismatch else InvalidAccountOwner)
        else if key != chain.bufferPda(state, index) || meta.buffer != key then
          Err(BufferKeyMismatch)
        else
          var contentLen :- ContentLen(|w.buffers[key]|);
          if meta.len > contentLen then Err(InvalidBufferBounds)
          else if chain.sha256(w.buffers[key][..meta.len]) != meta.storySha256 then Err(BufferHashMismatch)
          else Ok(())
  }

  function EventVerified(chain: Chain, w: World, state: Pubkey, index: U64, u: StateUpdate, buffer: Option<Pubkey>)
    : Result<(), SettlementError>
    requires u.Event?
  {
    if |u.payload| + 8 > MAX_EVENT_CPI_DATA_LEN then Err(EventTooLarge)
    else if u.discriminant == STORY_META_DISCRIMINANT then StoryMetaVerified(chain, w, state, index, u.payload, buffer)
    else Ok(())
  }

  /** Validation of the first n updates: the root stored so far. */
  function ValidatedPrefix(chain: Chain, w: World, state: Pubkey, index: U64, updates: seq<StateUpdate>,
                           buffer: Option<Pubkey>, n: nat): Result<Option<Bytes32>, SettlementError>
    requires n <= |updates|
  {
    if n == 0 then Ok(None)
    else
      var root :- ValidatedPrefix(chain, w, state, index, updates, buffer, n - 1);
      match updates[n - 1]
      case Store(data) => if root.Some? then Err(MultipleStore) else Ok(Some(data))
      case Event(_, _) =>
        var _ :- EventVerified(chain, w, state, index, updates[n - 1], buffer);
        Ok(root)
  }

  function Validated(chain: Chain, w: World, state: Pubkey, index: U64, updates: seq<StateUpdate>, buffer: Option<Pubkey>)
    : Result<Bytes32, SettlementError>
  {
    var root :- ValidatedPrefix(chain, w, state, index, updates, buffer, |updates|);
    if root.None? then Err(MissingStore) else Ok(root.value)
  }

  // ----- events -----

  /** An account as the called instruction sees it. */
  datatype AccountMeta = AccountMeta(key: Pubkey, signer: bool)

  /** Data of the program's call to itself for an event. */
  function EventCpiData(u: StateUpdate): Bytes
    requires u.Event?
  {
    u.discriminant + u.payload
  }

  /** How many accounts the instruction with this discriminator takes, if it is
      an instruction's. */
  function InstructionAccounts(discriminator: Bytes): (n: Option<nat>)
    ensures n.Some? ==> n.value >= 3
  {
    if discriminator == SETTLE_DISCRIMINATOR then Some(7)
    else if discriminator == INITIALIZE_STATE_DISCRIMINATOR || discriminator == WRITE_BUFFER_DISCRIMINATOR then Some(4)
    else if discriminator == CLOSE_BUFFER_DISCRIMINATOR then Some(3)
    else None
  }

  function EventProcessed(authority: Pubkey, account: AccountMeta, data: Bytes): Result<(), SettlementError> {
    if account.key != authority || !account.signer then Err(EventAuthorityNotSigner)
    else if |data| > MAX_EVENT_CPI_DATA_LEN then Err(EventTooLarge)
    else Ok(())
  }

  /** The program's entry point called with a single account: every instruction
      runs out of accounts, anything else is taken for an event. */
  function Dispatched(authority: Pubkey, account: AccountMeta, data: Bytes): Result<(), SettlementError> {
    if |data| < 8 then Err(InvalidInstructionData)
    else if InstructionAccounts(data[..8]).Some? then Err(NotEnoughAccountKeys)
    else EventProcessed(authority, account, data)
  }

  /** The program emits an event by calling itself, signing as the authority. */
  function Emitted(chain: Chain, u: StateUpdate): Result<(), SettlementError>
    requires u.Event?
  {
    Dispatched(chain.eventAuthority, AccountMeta(chain.eventAuthority, true), EventCpiData(u))
  }

  /** Records of the first n updates' events, in order; the first failing call
      aborts. */
  function EmittedPrefix(chain: Chain, updates: seq<StateUpdate>, n: nat): Result<seq<Bytes>, SettlementError>
    requires n <= |updates|
  {
    if n == 0 then Ok([])
    else
      var records :- EmittedPrefix(chain, updates, n - 1);
      match updates[n - 1]
      case Store(_) => Ok(records)
      case Event(_, _) =>
        match Emitted(chain, updates[n - 1])
        case Err(e) => Err(SelfCpiFailed(e))
        case Ok(_) => Ok(records + [EventCpiData(updates[n - 1])])
  }

  function AllEmitted(chain: Chain, updates: seq<StateUpdate>): Result<seq<Bytes>, SettlementError> {
    EmittedPrefix(chain, updates, |updates|)
  }

  /** A call counts as an event iff it is long enough, not too long, starts with
      no instruction's discriminator and the authority has signed. */
  lemma DispatchedIff(authority: Pubkey, account: AccountMeta, data: Bytes)
    ensures Dispatched(authority, account, data).Ok? <==>
            && 8 <= |data| <= MAX_EVENT_CPI_DATA_LEN
            && InstructionAccounts(data[..8]).None?
            && account == AccountMeta(authority, true)
  {}

  /** An event that fits and whose discriminant is no instruction's. */
  predicate Emittable(u: StateUpdate) {
    u.Event? ==>
      && u.discriminant != SETTLE_DISCRIMINATOR && u.discriminant != INITIALIZE_STATE_DISCRIMINATOR
      && u.discriminant != WRITE_BUFFER_DISCRIMINATOR && u.discriminant != CLOSE_BUFFER_DISCRIMINATOR
      && |u.payload| + 8 <= 10_240
  }

  predicate AllEmittable(updates: seq<StateUpdate>) {
    forall i :: 0 <= i < |updates| ==> Emittable(updates[i])
  }

  lemma EmittedIff(chain: Chain, u: StateUpdate)
    requires u.Event?
    ensures Emitted(chain, u).Ok? <==> Emittable(u)
  {
    assert EventCpiData(u)[..8] == u.discriminant;
  }

  /** All events go out iff each of them is emittable. */
  lemma {:induction false} EmittedPrefixIff(chain: Chain, updates: seq<StateUpdate>, n: nat)
    requires n <= |updates|
    ensures EmittedPrefix(chain, updates, n).Ok? <==> forall i :: 0 <= i < n ==> Emittable(updates[i])
  {
    if n > 0 {
      EmittedPrefixIff(chain, updates, n - 1);
      if updates[n - 1].Event? {
        EmittedIff(chain, updates[n - 1]);
      }
    }
  }

  /** The record then holds exactly the events, in order: an event after k
      Stores is k places further on in the record. */
  lemma {:induction false} EmittedRecords(chain: Chain, updates: seq<StateUpdate>, n: nat, i: nat)
    requires i < n <= |updates| && EmittedPrefix(chain, updates, n).Ok?
    ensures |EmittedPrefix(chain, updates, n).value| == n - StoreCount(updates, n)
    ensures updates[i].Event? ==>
              i - StoreCount(updates, i) < |EmittedPrefix(chain, updates, n).value|
              && EmittedPrefix(chain, updates, n).value[i - StoreCount(updates, i)] == EventCpiData(updates[i])
  {
    if n > 1 {
      EmittedRecords(chain, updates, n - 1, if i < n - 1 then i else 0);
    }
  }

  /** A diff can be valid and still not go out: an event under an instruction's
      own discriminator passes validation, and its call then fails. */
  lemma InstructionEventFails(chain: Chain, w: World, state: Pubkey, index: U64, root: Bytes32, discriminant: Bytes8,
                              payload: Bytes, buffer: Option<Pubkey>)
    requires InstructionAccounts(discriminant).Some? && |payload| + 8 <= MAX_EVENT_CPI_DATA_LEN
    ensures var updates := [Store(root), Event(discriminant, payload)];
            && Validated(chain, w, state, index, updates, buffer) == Ok(root)
            && AllEmitted(chain, updates) == Err(SelfCpiFailed(NotEnoughAccountKeys))
  {
    var updates := [Store(root), Event(discriminant, payload)];
    assert ValidatedPrefix(chain, w, state, index, updates, buffer, 1) == Ok(Some(root));
    assert EmittedPrefix(chain, updates, 1) == Ok([]);
    assert EventCpiData(updates[1])[..8] == discriminant;
  }

  // ----- settling a payload -----

  /** The certificate a settle presents for its payload's digest. */
  function SettleCertificate(chain: Chain, bytes: Bytes, proof: Proof): Certificate {
    Certificate(chain.sha256(bytes), proof.aggregatedG2, proof.aggregatedSignature, proof.bitmap, proof.expectedGeneration)
  }

  function Applied(g: GkState, root: Bytes32): Result<GkState, SettlementError> {
    if g.transitionCount == U64_MAX then Err(SettlementError.ArithmeticOverflow)
    else Ok(g.(commitmentRoot := root, transitionCount := g.transitionCount + 1))
  }

  /** The payload is for this state and its next transition. */
  function PayloadBound(w: World, state: Pubkey, payload: SettlementPayload): (r: Result<Bytes, SettlementError>)
    ensures r.Ok? ==> state in w.states
  {
    if state !in w.states then Err(InvalidAccountOwner)
    else if payload.ixDiscriminator != SETTLE_DISCRIMINATOR then Err(DigestMismatch)
    else if payload.statePda != state then Err(InvalidStatePda)
    else if payload.transitionIndex != w.states[state].transitionCount then Err(InvalidTransitionIndex)
    else if !Encodable(payload) then Err(SerializationError)
    else Ok(EncodePayload(payload))
  }

  /** The certificate over the payload's digest, from the NCN passed in. */
  function PayloadCertified(chain: Chain, c: Cluster, ncn: Pubkey, epochLength: U64, bytes: Bytes, proof: Proof)
    : Result<(), SettlementError>
  {
    match NcnVerdict(chain, c, ncn, epochLength, SettleCertificate(chain, bytes, proof))
    case Err(e) => Err(CertificateRejected(e))
    case Ok(_) => Ok(())
  }

  /** The diff, its events and the one write. */
  function DiffApplied(chain: Chain, w: World, state: Pubkey, buffer: Option<Pubkey>, payload: SettlementPayload)
    : Result<World, SettlementError>
    requires state in w.states
  {
    var root :- Validated(chain, w, state, payload.transitionIndex, payload.updates, buffer);
    var _ :- AllEmitted(chain, payload.updates);
    var applied :- Applied(w.states[state], root);
    Ok(w.(states := w.states[state := applied]))
  }

  function Settled(chain: Chain, w: World, state: Pubkey, buffer: Option<Pubkey>, ncn: Pubkey, epochLength: U64,
                   payload: SettlementPayload, proof: Proof): Result<World, SettlementError>
  {
    var bytes :- PayloadBound(w, state, payload);
    var _ :- PayloadCertified(chain, w.cluster, ncn, epochLength, bytes, proof);
    DiffApplied(chain, w, state, buffer, payload)
  }

  function Within(w: World, cluster: Result<Cluster, SettlementError>): Result<World, SettlementError> {
    var c :- cluster;
    Ok(w.(cluster := c))
  }

  function Perform(chain: Chain, w: World, op: Op): Result<World, SettlementError> {
    match op
    case AdvanceClock(slots) => Within(w, ClockAdvanced(chain, w.cluster, slots))
    case OpenNcn(ncn, threshold, validSlots) => Within(w, NcnOpened(w.cluster, ncn, threshold, validSlots))
    case SetNcnParameters(ncn, threshold, validSlots) => Within(w, NcnParametersSet(w.cluster, ncn, threshold, validSlots))
    case NcnInstruction(ncn, call) => Within(w, NcnStepped(chain, w.cluster, ncn, call))
    case InitializeState(ncn, appId, sim, env) => StateInitialized(chain, w, ncn, appId, sim, env)
    case WriteBuffer(state, account, index, args, payer) => BufferWritten(chain, w, state, account, index, args, payer)
    case Settle(state, buffer, ncn, epochLength, payload, proof) =>
      Settled(chain, w, state, buffer, ncn, epochLength, payload, proof)
    case CloseBuffer(state, account, index, payer) => BufferClosed(chain, w, state, account, index, payer)
  }

  // ----- runs -----

  /** The world and the successful settles so far. */
  datatype History = History(world: World, log: seq<Op>)

  function Advance(chain: Chain, h: History, op: Op): History {
    match Perform(chain, h.world, op)
    case Err(_) => h
    case Ok(w) => History(w, if op.Settle? then h.log + [op] else h.log)
  }

  function Play(chain: Chain, ops: seq<Op>): History {
    if ops == [] then History(EMPTY_WORLD, [])
    else Advance(chain, Play(chain, ops[..|ops| - 1]), ops[|ops| - 1])
  }

  // ----- what validation means -----

  function StoreCount(updates: seq<StateUpdate>, n: nat): (count: nat)
    requires n <= |updates|
    ensures count <= n
  {
    if n == 0 then 0 else StoreCount(updates, n - 1) + if updates[n - 1].Store? then 1 else 0
  }

  ghost predicate EventsVerified(chain: Chain, w: World, state: Pubkey, index: U64, updates: seq<StateUpdate>,
                                 buffer: Option<Pubkey>, n: nat)
    requires n <= |updates|
  {
    forall i :: 0 <= i < n && updates[i].Event? ==> EventVerified(chain, w, state, index, updates[i], buffer).Ok?
  }

  lemma {:induction false} ValidatedPrefixIff(chain: Chain, w: World, state: Pubkey, index: U64, updates: seq<StateUpdate>,
                                              buffer: Option<Pubkey>, n: nat)
    requires n <= |updates|
    ensures ValidatedPrefix(chain, w, state, index, updates, buffer, n).Ok? <==>
            StoreCount(updates, n) <= 1 && EventsVerified(chain, w, state, index, updates, buffer, n)
    ensures ValidatedPrefix(chain, w, state, index, updates, buffer, n).Ok? ==>
              match ValidatedPrefix(chain, w, state, index, updates, buffer, n).value
              case None => StoreCount(updates, n) == 0
              case Some(root) => StoreCount(updates, n) == 1 && exists i :: 0 <= i < n && updates[i] == Store(root)
  {
    if n > 0 {
      ValidatedPrefixIff(chain, w, state, index, updates, buffer, n - 1);
    }
  }

  /** A diff is valid iff it holds exactly one Store and every event passes its
      own check; the root is that Store's. */
  lemma ValidatedIff(chain: Chain, w: World, state: Pubkey, index: U64, updates: seq<StateUpdate>, buffer: Option<Pubkey>)
    ensures Validated(chain, w, state, index, updates, buffer).Ok? <==>
            StoreCount(updates, |updates|) == 1
            && EventsVerified(chain, w, state, index, updates, buffer, |updates|)
    ensures Validated(chain, w, state, index, updates, buffer).Ok? ==>
              Store(Validated(chain, w, state, index, updates, buffer).value) in updates
  {
    ValidatedPrefixIff(chain, w, state, index, updates, buffer, |updates|);
  }
}
