/**
 The NCN program as a state machine: one transition per instruction handler that
 touches the operator set, the vault registry or the recorded stake. A handler
 that fails leaves the state as it was.

 The clock is part of the state, so slots never decrease along a run. Accounts of
 other programs appear as instruction arguments.
 */
module NcnProgram {
  import opened Prelude
  import opened NcnErrors
  import opened Bls
  import opened Operator
  import opened SnapshotAccount
  import opened VaultRegistry

  datatype OperatorAccount = OperatorAccount(g1Pubkey: Bytes32, g2Pubkey: Bytes64, ncnOperatorIndex: U64)

  /** `snapshot` is absent until the account has grown to its full size. */
  datatype NcnState = NcnState(
    clock: U64,
    snapshotSize: nat,
    snapshot: Option<SnapshotView>,
    registry: Registry,
    accounts: map<Pubkey, OperatorAccount>)

  datatype Instruction =
    | Tick(slots: U64)
    | ReallocSnapshot(minimumStake: U128)
    | RegisterOperator(operator: Pubkey, index: U64, g1Key: Bytes32, g2Key: Bytes64,
                       signature: RawG1, connectionActive: bool)
    | UpdateOperatorKeys(operator: Pubkey, g1Key: Bytes32, g2Key: Bytes64, signature: RawG1)
    | RemoveOperator(operator: Pubkey)
    | RegisterStMint(mint: Pubkey, weightBps: U16)
    | RegisterVault(vault: Pubkey, mint: Pubkey, vaultIndex: U64)
    | SnapshotDelegation(operator: Pubkey, vault: Pubkey, isActive: bool, totalSecurity: U64, coolingDown: U64)

  const MAX_REALLOC_BYTES: nat := 10_240
  const SNAPSHOT_SIZE: nat := 197_505

  const GENESIS: NcnState := NcnState(0, MAX_REALLOC_BYTES, None, EMPTY_REGISTRY, map[])

  ghost predicate Sound(st: NcnState) {
    && |st.registry.vaults| == MAX_ENTRIES
    && (st.snapshot.Some? ==> SlotsWellFormed(st.snapshot.value.slots))
  }

  type SoundState = st: NcnState | Sound(st) witness GENESIS

  // ----- the handlers -----

  function Realloc(st: NcnState, minimumStake: U128): (after: NcnState)
    requires Sound(st)
    ensures Sound(after)
  {
    var size := if st.snapshotSize + MAX_REALLOC_BYTES < SNAPSHOT_SIZE
                then st.snapshotSize + MAX_REALLOC_BYTES else SNAPSHOT_SIZE;
    var grown := st.(snapshotSize := if st.snapshotSize < SNAPSHOT_SIZE then size else st.snapshotSize);
    if grown.snapshotSize >= SNAPSHOT_SIZE && st.snapshot.None? then
      grown.(snapshot := Some(Initialized(minimumStake)))
    else
      grown
  }

  function LoadSnapshot(st: NcnState): Result<SnapshotView, NcnError> {
    match st.snapshot
    case None => Err(SnapshotNotInitialized)
    case Some(v) => Ok(v)
  }

  /** Proof of possession of the G2 key over (operator, g1 key). */
  function CheckRegistrationKeys(suite: Suite, operator: Pubkey, g1Key: Bytes32, g2Key: Bytes64, signature: RawG1)
    : Result<(), NcnError>
  {
    match suite.decompressG2(g2Key)
    case None => Err(G2PointDecompressionError)
    case Some(q) =>
      if VerifyOperatorRegistration(suite, q, signature, g1Key, suite.popDigest(operator, g1Key)).Ok?
      then Ok(()) else Err(BlsVerificationError)
  }

  function Registered(suite: Suite, st: NcnState, operator: Pubkey, index: U64, g1Key: Bytes32, g2Key: Bytes64,
                      signature: RawG1, connectionActive: bool): (r: Result<NcnState, NcnError>)
    requires Sound(st)
    ensures r.Ok? ==> Sound(r.value)
  {
    if operator in st.accounts then
      Err(AccountAlreadyExists)
    else
      var v :- LoadSnapshot(st);
      if !connectionActive then
        Err(OperatorNcnConnectionNotActive)
      else
        var _ :- CheckRegistrationKeys(suite, operator, g1Key, g2Key, signature);
        if index >= MAX_OPERATORS then
          Err(OperatorIsNotInSnapshot)
        else
          var added :- OperatorAdded(v, NewOperator(operator, connectionActive, index, g1Key), st.clock);
          var keyed :- KeyRegistered(suite, added, g1Key);
          Ok(st.(snapshot := Some(keyed),
                 accounts := st.accounts[operator := OperatorAccount(g1Key, g2Key, index)]))
  }

  function CheckRotationKeys(suite: Suite, operator: Pubkey, g1Key: Bytes32, g2Key: Bytes64, signature: RawG1)
    : Result<(), NcnError>
  {
    match suite.decompressG1(g1Key)
    case None => Err(G1PointDecompressionError)
    case Some(key) =>
      match suite.decompressG2(g2Key)
      case None => Err(G2PointDecompressionError)
      case Some(q) =>
        if VerifyG2(key, q) == Ok(true)
           && VerifySignature(suite, q, signature, suite.popDigest(operator, g1Key)).Ok?
        then Ok(()) else Err(BlsVerificationError)
  }

  function KeysUpdated(suite: Suite, st: NcnState, operator: Pubkey, g1Key: Bytes32, g2Key: Bytes64,
                       signature: RawG1): (r: Result<NcnState, NcnError>)
    requires Sound(st)
    ensures r.Ok? ==> Sound(r.value)
  {
    if operator !in st.accounts then
      Err(AccountNotFound)
    else
      var v :- LoadSnapshot(st);
      var _ :- CheckRotationKeys(suite, operator, g1Key, g2Key, signature);
      var account := st.accounts[operator].(g1Pubkey := g1Key, g2Pubkey := g2Key);
      var rotated :- KeyRotated(suite, v, g1Key, operator);
      Ok(st.(snapshot := Some(rotated), accounts := st.accounts[operator := account]))
  }

  function Removed(suite: Suite, st: NcnState, operator: Pubkey): (r: Result<NcnState, NcnError>)
    requires Sound(st)
    ensures r.Ok? ==> Sound(r.value)
  {
    var v :- LoadSnapshot(st);
    var removed :- OperatorRemoved(suite, v, operator);
    Ok(st.(snapshot := Some(removed.0)))
  }

  /** Delegation scaled by the weight of the vault's mint. */
  function ApplyWeight(raw: U128, weightBps: U16): Result<U128, NcnError> {
    if raw * weightBps > U128_MAX then Err(ArithmeticOverflow)
    else
      assert 0 <= (raw * weightBps) / FULL_WEIGHT_BPS <= raw * weightBps;
      Ok((raw * weightBps) / FULL_WEIGHT_BPS)
  }

  /** The weighted delegation a crank records, for this and the next epoch. */
  function WeightedDelegation(reg: Registry, vault: Pubkey, isActive: bool, totalSecurity: U64, coolingDown: U64)
    : Result<(U128, U128), NcnError>
  {
    var weightBps :- VaultWeightBps(reg, vault);
    var raw :- if isActive then CalculateStakeWeights(totalSecurity, coolingDown) else Ok((0, 0));
    var stake :- ApplyWeight(raw.0, weightBps);
    var next :- ApplyWeight(raw.1, weightBps);
    Ok((stake, next))
  }

  function Cranked(st: NcnState, operator: Pubkey, vault: Pubkey, isActive: bool,
                   totalSecurity: U64, coolingDown: U64): (r: Result<NcnState, NcnError>)
    requires Sound(st)
    ensures r.Ok? ==> Sound(r.value)
  {
    var v :- LoadSnapshot(st);
    match FindOperator(v.slots, operator, 0)
    case None => Err(OperatorIsNotInSnapshot)
    case Some(i) =>
      var slot :- VaultSlot(st.registry, vault);
      var weighted :- WeightedDelegation(st.registry, vault, isActive, totalSecurity, coolingDown);
      var op :- DelegationSnapshotted(v.slots[i], st.clock, slot, weighted.0, weighted.1, v.minimumStake);
      Ok(st.(snapshot := Some(v.(slots := v.slots[i := op], lastSnapshotSlot := st.clock))))
  }

  function Execute(suite: Suite, st: NcnState, ins: Instruction): (r: Result<NcnState, NcnError>)
    requires Sound(st)
    ensures r.Ok? ==> Sound(r.value)
  {
    match ins
    case Tick(slots) =>
      if st.clock + slots > U64_MAX then Err(ArithmeticOverflow) else Ok(st.(clock := st.clock + slots))
    case ReallocSnapshot(minimumStake) => Ok(Realloc(st, minimumStake))
    case RegisterOperator(operator, index, g1Key, g2Key, signature, connectionActive) =>
      Registered(suite, st, operator, index, g1Key, g2Key, signature, connectionActive)
    case UpdateOperatorKeys(operator, g1Key, g2Key, signature) =>
      KeysUpdated(suite, st, operator, g1Key, g2Key, signature)
    case RemoveOperator(operator) => Removed(suite, st, operator)
    case RegisterStMint(mint, weightBps) =>
      var reg :- MintRegistered(st.registry, mint, weightBps);
      Ok(st.(registry := reg))
    case RegisterVault(vault, mint, vaultIndex) =>
      var reg :- SupportedVaultRegistered(st.registry, vault, mint, vaultIndex, st.clock);
      Ok(st.(registry := reg))
    case SnapshotDelegation(operator, vault, isActive, totalSecurity, coolingDown) =>
      Cranked(st, operator, vault, isActive, totalSecurity, coolingDown)
  }

  function Step(suite: Suite, st: NcnState, ins: Instruction): (after: NcnState)
    requires Sound(st)
    ensures Sound(after)
  {
    match Execute(suite, st, ins)
    case Err(_) => st
    case Ok(after) => after
  }

  function Run(suite: Suite, program: seq<Instruction>): (st: NcnState)
    ensures Sound(st)
  {
    if program == [] then GENESIS
    else Step(suite, Run(suite, program[..|program| - 1]), program[|program| - 1])
  }
}
