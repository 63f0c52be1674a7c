/**
 The instruction handlers over the accounts themselves (program/src): each one
 checks, then updates the accounts in place, and is proved against its
 transition in `NcnProgram`. A handler that fails aborts its transaction, so
 nothing is said about what it leaves behind.
 */
module NcnHandlers {
  import opened Prelude
  import opened NcnErrors
  import opened Bls
  import opened Operator
  import opened SnapshotAccount
  import opened VaultRegistry
  import opened NcnProgram

  class NcnAccounts {
    const snapshot: Snapshot
    const registry: VaultRegistryAccount
    var operatorAccounts: map<Pubkey, OperatorAccount>
    var clock: U64

    ghost predicate Valid()
      reads this, snapshot, snapshot.operatorSnapshots, registry
    {
      snapshot.Valid() && registry.Valid()
    }

    /** The program state once the snapshot account has its full size. */
    ghost function State(): NcnState
      reads this, snapshot, snapshot.operatorSnapshots, registry, registry.stMintList, registry.vaultList
    {
      NcnState(clock, SNAPSHOT_SIZE, Some(snapshot.View()), registry.View(), operatorAccounts)
    }

    constructor (minimumStake: U128)
      ensures Valid() && fresh(snapshot) && fresh(registry)
      ensures State() == NcnState(0, SNAPSHOT_SIZE, Some(Initialized(minimumStake)), EMPTY_REGISTRY, map[])
    {
      snapshot := new Snapshot(minimumStake);
      registry := new VaultRegistryAccount();
      operatorAccounts := map[];
      clock := 0;
    }

    method ProcessRegisterOperator(suite: Suite, operator: Pubkey, index: U64, g1Key: Bytes32, g2Key: Bytes64,
                                   signature: RawG1, connectionActive: bool) returns (r: Result<(), NcnError>)
      requires Valid()
      modifies this, snapshot, snapshot.operatorSnapshots
      ensures snapshot.operatorSnapshots == old(snapshot.operatorSnapshots) && Valid()
      ensures Sound(old(State()))
      ensures var spec := Registered(suite, old(State()), operator, index, g1Key, g2Key, signature, connectionActive);
              if r.Ok? then spec == Ok(State()) else spec == Err(r.error)
    {
      if operator in operatorAccounts {
        return Err(AccountAlreadyExists);
      }
      if !connectionActive {
        return Err(OperatorNcnConnectionNotActive);
      }
      var checked := CheckRegistrationKeys(suite, operator, g1Key, g2Key, signature);
      if checked.Err? {
        return checked;
      }
      if index >= MAX_OPERATORS {
        return Err(OperatorIsNotInSnapshot);
      }
      operatorAccounts := operatorAccounts[operator := OperatorAccount(g1Key, g2Key, index)];
      var added := snapshot.AddOperatorSnapshot(NewOperator(operator, connectionActive, index, g1Key), clock);
      if added.Err? {
        return added;
      }
      r := snapshot.AddG1PubkeyToTotalAgg(suite, g1Key);
    }

    method ProcessUpdateOperatorKeys(suite: Suite, operator: Pubkey, g1Key: Bytes32, g2Key: Bytes64, signature: RawG1)
      returns (r: Result<(), NcnError>)
      requires Valid()
      modifies this, snapshot, snapshot.operatorSnapshots
      ensures snapshot.operatorSnapshots == old(snapshot.operatorSnapshots) && Valid()
      ensures Sound(old(State()))
      ensures var spec := KeysUpdated(suite, old(State()), operator, g1Key, g2Key, signature);
              if r.Ok? then spec == Ok(State()) else spec == Err(r.error)
    {
      if operator !in operatorAccounts {
        return Err(AccountNotFound);
      }
      var checked := CheckRotationKeys(suite, operator, g1Key, g2Key, signature);
      if checked.Err? {
        return checked;
      }
      operatorAccounts :=
        operatorAccounts[operator := operatorAccounts[operator].(g1Pubkey := g1Key, g2Pubkey := g2Key)];
      r := snapshot.UpdateG1OperatorPubkey(suite, g1Key, operator);
    }

    method ProcessRemoveOperator(suite: Suite, operator: Pubkey) returns (r: Result<nat, NcnError>)
      requires Valid()
      modifies snapshot, snapshot.operatorSnapshots
      ensures snapshot.operatorSnapshots == old(snapshot.operatorSnapshots) && Valid()
      ensures Sound(old(State()))
      ensures var spec := Removed(suite, old(State()), operator);
              if r.Ok? then spec == Ok(State()) else spec == Err(r.error)
    {
      r := snapshot.RemoveOperatorSnapshot(suite, operator);
    }

    method ProcessRegisterVault(vault: Pubkey, mint: Pubkey, vaultIndex: U64) returns (r: Result<(), NcnError>)
      requires Valid()
      modifies registry.vaultList
      ensures Valid()
      ensures var spec := SupportedVaultRegistered(old(State()).registry, vault, mint, vaultIndex, clock);
              if r.Ok? then spec == Ok(State().registry) && State() == old(State()).(registry := State().registry)
              else spec == Err(r.error)
    {
      var supported := registry.FindMint(mint);
      if supported.None? {
        return Err(MintNotSupported);
      }
      r := registry.RegisterVault(vault, mint, vaultIndex, clock);
    }

    /** The delegation crank: clone the entry, change it, write it back. */
    method ProcessSnapshotDelegation(operator: Pubkey, vault: Pubkey, isActive: bool,
                                     totalSecurity: U64, coolingDown: U64) returns (r: Result<(), NcnError>)
      requires Valid()
      modifies snapshot, snapshot.operatorSnapshots
      ensures snapshot.operatorSnapshots == old(snapshot.operatorSnapshots) && Valid()
      ensures Sound(old(State()))
      ensures var spec := Cranked(old(State()), operator, vault, isActive, totalSecurity, coolingDown);
              if r.Ok? then spec == Ok(State()) else spec == Err(r.error)
    {
      var at := snapshot.FindOperatorSnapshot(operator);
      if at.None? {
        return Err(OperatorIsNotInSnapshot);
      }
      var slot := registry.GetVaultRegistrySlot(vault);
      if slot.Err? {
        return Err(slot.error);
      }
      var weighted := WeighDelegation(vault, isActive, totalSecurity, coolingDown);
      if weighted.Err? {
        return Err(weighted.error);
      }
      var cloned := snapshot.operatorSnapshots[at.value];
      var updated := SnapshotVaultOperatorDelegation(cloned, clock, slot.value, weighted.value.0, weighted.value.1,
                                                     snapshot.minimumStake);
      if updated.Err? {
        return Err(updated.error);
      }
      snapshot.UpdateOperatorSnapshot(updated.value.ncnOperatorIndex, updated.value);
      snapshot.SetLastSnapshotSlot(clock);
      r := Ok(());
    }

    method WeighDelegation(vault: Pubkey, isActive: bool, totalSecurity: U64, coolingDown: U64)
      returns (r: Result<(U128, U128), NcnError>)
      requires registry.Valid()
      ensures r == WeightedDelegation(registry.View(), vault, isActive, totalSecurity, coolingDown)
    {
      var weightBps := registry.GetVaultWeightBps(vault);
      if weightBps.Err? {
        return Err(weightBps.error);
      }
      var raw: Result<(U128, U128), NcnError> := Ok((0, 0));
      if isActive {
        raw := CalculateStakeWeights(totalSecurity, coolingDown);
      }
      if raw.Err? {
        return raw;
      }
      var stake := ApplyWeight(raw.value.0, weightBps.value);
      if stake.Err? {
        return Err(stake.error);
      }
      var next := ApplyWeight(raw.value.1, weightBps.value);
      if next.Err? {
        return Err(next.error);
      }
      r := Ok((stake.value, next.value));
    }
  }
}
