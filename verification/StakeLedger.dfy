/**
 Recorded stake over whole runs: an operator's totals are the sum, over the
 registered vaults, of what the latest crank of each vault weighed.
 */
module StakeLedger {
  import opened Prelude
  import opened NcnErrors
  import opened Sums
  import opened Bls
  import opened Operator
  import opened SnapshotAccount
  import opened VaultRegistry
  import opened NcnProgram
  import opened NcnInvariants
  import opened NcnRuns

  /** (operator, vault, epoch view) to weight. */
  type Ledger = (Pubkey, Pubkey, StakeView) -> nat

  /** The weight the registry lists for the mint of a vault. */
  function ListedWeight(reg: Registry, vault: Pubkey): nat {
    match VaultSlotFrom(reg.vaults, vault, 0)
    case None => 0
    case Some(i) =>
      match MintIndex(reg.mints, reg.vaults[i].stMint, 0)
      case None => 0
      case Some(j) => reg.mints[j].weightBps
  }

  /** What a delegation is worth at a weight in basis points: in full this epoch,
      without what is cooling down in the next, nothing over an inactive
      connection. */
  function DelegationWorth(weightBps: nat, isActive: bool, totalSecurity: nat, coolingDown: nat, view: StakeView): nat {
    if !isActive then 0
    else if view.ThisEpoch? then totalSecurity * weightBps / 10_000
    else if coolingDown > totalSecurity then 0
    else (totalSecurity - coolingDown) * weightBps / 10_000
  }

  function Recorded(ledger: Ledger, operator: Pubkey, vault: Pubkey, worth: StakeView -> nat): Ledger {
    (o: Pubkey, v: Pubkey, view: StakeView) =>
      var weight: nat := if o == operator && v == vault then worth(view) else ledger(o, v, view);
      weight
  }

  /** A crank records one vault's weight, a removal forgets the operator. */
  function LedgerStep(suite: Suite, st: NcnState, ins: Instruction, ledger: Ledger): Ledger
    requires Sound(st)
  {
    if Execute(suite, st, ins).Err? then ledger
    else
      match ins
      case SnapshotDelegation(operator, vault, isActive, totalSecurity, coolingDown) =>
        var weightBps := ListedWeight(st.registry, vault);
        Recorded(ledger, operator, vault, view => DelegationWorth(weightBps, isActive, totalSecurity, coolingDown, view))
      case RemoveOperator(operator) => (o, v, view) => if o == operator then 0 else ledger(o, v, view)
      case _ => ledger
  }

  /** The weight of the latest successful crank of the vault for the operator
      since the operator's registration. */
  function Latest(suite: Suite, program: seq<Instruction>): Ledger {
    if program == [] then (_, _, _) => 0
    else
      var before := program[..|program| - 1];
      LedgerStep(suite, Run(suite, before), program[|program| - 1], Latest(suite, before))
  }

  function SlotLedger(reg: Registry, ledger: Ledger, operator: Pubkey, slot: nat, view: StakeView): nat {
    if Weighable(reg, slot) then ledger(operator, reg.vaults[slot].vault, view) else 0
  }

  // ----- the refinement relation -----

  ghost predicate OperatorMatches(reg: Registry, ledger: Ledger, op: OperatorSnapshot) {
    op.IsLive() ==>
      forall slot: nat, view: StakeView :: slot < MAX_VAULTS ==>
        WeightInSlot(op.vaultContributions, slot, view) == SlotLedger(reg, ledger, op.operator, slot, view)
  }

  ghost predicate IsLiveOperator(slots: seq<OperatorSnapshot>, operator: Pubkey) {
    exists i :: 0 <= i < |slots| && slots[i].IsLive() && slots[i].operator == operator
  }

  ghost predicate IsWeighable(reg: Registry, vault: Pubkey) {
    exists s :: 0 <= s < |reg.vaults| && Weighable(reg, s) && reg.vaults[s].vault == vault
  }

  ghost predicate LedgerOk(st: NcnState, ledger: Ledger) {
    && (st.snapshot.Some? ==>
          forall i :: 0 <= i < |st.snapshot.value.slots| ==>
            OperatorMatches(st.registry, ledger, st.snapshot.value.slots[i]))
    && (forall o: Pubkey, v: Pubkey, view: StakeView :: ledger(o, v, view) != 0 ==>
          && st.snapshot.Some? && IsLiveOperator(st.snapshot.value.slots, o)
          && IsWeighable(st.registry, v))
  }

  lemma NewVaultLedger(st: NcnState, ledger: Ledger, vault: Pubkey, mint: Pubkey, vaultIndex: U64, slot: U64)
    requires RegistryOk(st.registry) && LedgerOk(st, ledger)
    requires VaultRegistered(st.registry, vault, mint, vaultIndex, slot).Ok?
    ensures LedgerOk(st.(registry := VaultRegistered(st.registry, vault, mint, vaultIndex, slot).value), ledger)
  {
    var before, after := st.registry, VaultRegistered(st.registry, vault, mint, vaultIndex, slot).value;
    VaultRegistrationKeeps(before, vault, mint, vaultIndex, slot);
    forall v | IsWeighable(before, v) ensures IsWeighable(after, v) {
      var s :| 0 <= s < |before.vaults| && Weighable(before, s) && before.vaults[s].vault == v;
      assert Weighable(after, s) && after.vaults[s].vault == v;
    }
    forall s: nat, o: Pubkey, view: StakeView
      ensures SlotLedger(after, ledger, o, s, view) == SlotLedger(before, ledger, o, s, view)
    {
      if Weighable(after, s) && !Weighable(before, s) {
        assert after.vaults[s].vault == vault && !IsWeighable(before, vault);
      }
    }
    if st.snapshot.Some? {
      forall i | 0 <= i < |st.snapshot.value.slots|
        ensures OperatorMatches(after, ledger, st.snapshot.value.slots[i])
      {
        assert OperatorMatches(before, ledger, st.snapshot.value.slots[i]);
      }
    }
  }

  lemma {:induction false} NoContributionsWeighNothing(cs: seq<VaultContribution>, slot: nat, view: StakeView)
    requires cs == NoContributions() && slot < MAX_VAULTS
    ensures WeightInSlot(cs, slot, view) == 0
  {
    UnseenSlotWeighsNothing(cs, slot, view, |cs|);
  }

  lemma NewOperatorLedger(suite: Suite, st: NcnState, ledger: Ledger, ins: Instruction)
    requires Sound(st) && Inv(suite, st) && LedgerOk(st, ledger)
    requires ins.RegisterOperator? && Execute(suite, st, ins).Ok?
    ensures LedgerOk(Step(suite, st, ins), ledger)
  {
    var after := Step(suite, st, ins);
    var v, w := st.snapshot.value, after.snapshot.value;
    assert w.slots == v.slots[ins.index := NewOperator(ins.operator, ins.connectionActive, ins.index, ins.g1Key)];
    UnregisteredIsNotLive(suite, st, ins.operator);
    forall i | 0 <= i < |w.slots| ensures OperatorMatches(after.registry, ledger, w.slots[i]) {
      if i == ins.index {
        forall slot: nat, view: StakeView | slot < MAX_VAULTS
          ensures WeightInSlot(w.slots[i].vaultContributions, slot, view) == 0
        {
          NoContributionsWeighNothing(w.slots[i].vaultContributions, slot, view);
        }
      } else {
        assert OperatorMatches(st.registry, ledger, v.slots[i]);
      }
    }
    forall o | IsLiveOperator(v.slots, o) ensures IsLiveOperator(w.slots, o) {
      var i :| 0 <= i < |v.slots| && v.slots[i].IsLive() && v.slots[i].operator == o;
      assert w.slots[i] == v.slots[i];
    }
  }

  lemma UnregisteredIsNotLive(suite: Suite, st: NcnState, operator: Pubkey)
    requires Inv(suite, st) && st.snapshot.Some? && operator !in st.accounts
    ensures !IsLiveOperator(st.snapshot.value.slots, operator)
  {
    var v := st.snapshot.value;
    forall i | 0 <= i < |v.slots| && v.slots[i].IsLive() ensures v.slots[i].operator != operator {
      assert SlotOk(suite, v.slots[i], v, st.accounts);
    }
  }

  lemma RotationLedger(suite: Suite, st: NcnState, ledger: Ledger, ins: Instruction)
    requires Sound(st) && LedgerOk(st, ledger)
    requires ins.UpdateOperatorKeys? && Execute(suite, st, ins).Ok?
    ensures LedgerOk(Step(suite, st, ins), ledger)
  {
    var after := Step(suite, st, ins);
    var v, w := st.snapshot.value, after.snapshot.value;
    KeyRotatedSlots(suite, v, ins.g1Key, ins.operator);
    RotatedSlotsLedger(st.registry, ledger, v.slots, FindOperator(v.slots, ins.operator, 0), ins.g1Key);
  }

  lemma RotatedSlotsLedger(reg: Registry, ledger: Ledger, slots: seq<OperatorSnapshot>, at: Option<nat>, key: Bytes32)
    requires at.Some? ==> at.value < |slots|
    requires forall i :: 0 <= i < |slots| ==> OperatorMatches(reg, ledger, slots[i])
    ensures forall i :: 0 <= i < |slots| ==> OperatorMatches(reg, ledger, KeyReplaced(slots, at, key)[i])
    ensures forall o :: IsLiveOperator(slots, o) ==> IsLiveOperator(KeyReplaced(slots, at, key), o)
  {
    var rotated := KeyReplaced(slots, at, key);
    forall i | 0 <= i < |slots| ensures OperatorMatches(reg, ledger, rotated[i]) {
      assert OperatorMatches(reg, ledger, slots[i]);
    }
    forall o | IsLiveOperator(slots, o) ensures IsLiveOperator(rotated, o) {
      var i :| 0 <= i < |slots| && slots[i].IsLive() && slots[i].operator == o;
      assert rotated[i].IsLive() && rotated[i].operator == o;
    }
  }

  lemma RemovalLedger(suite: Suite, st: NcnState, ledger: Ledger, ins: Instruction)
    requires Sound(st) && Inv(suite, st) && LedgerOk(st, ledger)
    requires ins.RemoveOperator? && Execute(suite, st, ins).Ok?
    ensures LedgerOk(Step(suite, st, ins), LedgerStep(suite, st, ins, ledger))
  {
    var after, ledger' := Step(suite, st, ins), LedgerStep(suite, st, ins, ledger);
    var v, w := st.snapshot.value, after.snapshot.value;
    var at := FindOperator(v.slots, ins.operator, 0).value;
    assert w.slots == v.slots[at := EmptyOperator()];
    forall i | 0 <= i < |w.slots| ensures OperatorMatches(after.registry, ledger', w.slots[i]) {
      assert OperatorMatches(st.registry, ledger, v.slots[i]);
    }
    forall o | IsLiveOperator(v.slots, o) && o != ins.operator ensures IsLiveOperator(w.slots, o) {
      var i :| 0 <= i < |v.slots| && v.slots[i].IsLive() && v.slots[i].operator == o;
      assert w.slots[i] == v.slots[i];
    }
  }

  lemma CrankedContributions(op: OperatorSnapshot, clock: U64, slot: U64, stake: U128, next: U128, minimumStake: U128,
                             s: nat, view: StakeView)
    requires ContributionsOk(op.vaultContributions) && slot < MAX_VAULTS && s < MAX_VAULTS
    requires DelegationSnapshotted(op, clock, slot, stake, next, minimumStake).Ok?
    ensures var after := DelegationSnapshotted(op, clock, slot, stake, next, minimumStake).value;
            && after.IsLive() == op.IsLive() && after.operator == op.operator
            && WeightInSlot(after.vaultContributions, s, view) ==
               if s != slot then WeightInSlot(op.vaultContributions, s, view)
               else if view.ThisEpoch? then stake else next
  {
    UpsertRefinesMap(op.vaultContributions, slot, stake, next);
  }

  lemma OtherOperatorMatches(reg: Registry, ledger: Ledger, ledger': Ledger, op: OperatorSnapshot, operator: Pubkey)
    requires OperatorMatches(reg, ledger, op) && op.operator != operator
    requires forall o: Pubkey, v: Pubkey, view: StakeView :: o != operator ==> ledger'(o, v, view) == ledger(o, v, view)
    ensures OperatorMatches(reg, ledger', op)
  {}

  lemma CrankLedger(suite: Suite, st: NcnState, ledger: Ledger, ins: Instruction)
    requires Sound(st) && Inv(suite, st) && LedgerOk(st, ledger)
    requires ins.SnapshotDelegation? && Execute(suite, st, ins).Ok?
    ensures LedgerOk(Step(suite, st, ins), LedgerStep(suite, st, ins, ledger))
  {
    var after, ledger' := Step(suite, st, ins), LedgerStep(suite, st, ins, ledger);
    var v, w := st.snapshot.value, after.snapshot.value;
    var at := FindOperator(v.slots, ins.operator, 0).value;
    assert w.slots == v.slots[at := w.slots[at]];
    CrankedOperatorMatches(suite, st, ledger, ins);
    forall i | 0 <= i < |w.slots| ensures OperatorMatches(after.registry, ledger', w.slots[i]) {
      if i != at {
        assert OperatorMatches(st.registry, ledger, v.slots[i]);
        if v.slots[i].IsLive() {
          OtherOperatorMatches(st.registry, ledger, ledger', v.slots[i], ins.operator);
        }
      }
    }
    CrankedVaultWeighable(st, ins.vault, ins.isActive, ins.totalSecurity, ins.coolingDown);
    WeightedIsWorth(st.registry, ins.vault, ins.isActive, ins.totalSecurity, ins.coolingDown);
    var weightBps := ListedWeight(st.registry, ins.vault);
    CrankSupport(st.registry, ledger, ins.operator, ins.vault,
                 view => DelegationWorth(weightBps, ins.isActive, ins.totalSecurity, ins.coolingDown, view), v.slots, w.slots, at);
  }

  /** The crank's own arithmetic gives what the delegation is worth. */
  lemma WeightedIsWorth(reg: Registry, vault: Pubkey, isActive: bool, totalSecurity: U64, coolingDown: U64)
    requires WeightedDelegation(reg, vault, isActive, totalSecurity, coolingDown).Ok?
    ensures var weighted := WeightedDelegation(reg, vault, isActive, totalSecurity, coolingDown).value;
            && weighted.0 == DelegationWorth(ListedWeight(reg, vault), isActive, totalSecurity, coolingDown, ThisEpoch)
            && weighted.1 == DelegationWorth(ListedWeight(reg, vault), isActive, totalSecurity, coolingDown, NextEpoch)
  {}

  /** Whatever has weight is still a live operator under a weighable vault. */
  lemma CrankSupport(reg: Registry, ledger: Ledger, operator: Pubkey, vault: Pubkey, worth: StakeView -> nat,
                     before: seq<OperatorSnapshot>, after: seq<OperatorSnapshot>, at: nat)
    requires !IsWeighable(reg, vault) ==> worth(ThisEpoch) == 0 == worth(NextEpoch)
    requires at < |before| && |after| == |before| && before[at].IsLive() && before[at].operator == operator
    requires after == before[at := after[at]]
    requires after[at].IsLive() && after[at].operator == operator
    requires forall o: Pubkey, v: Pubkey, view: StakeView :: ledger(o, v, view) != 0 ==>
               IsLiveOperator(before, o) && IsWeighable(reg, v)
    ensures forall o: Pubkey, v: Pubkey, view: StakeView ::
              Recorded(ledger, operator, vault, worth)(o, v, view) != 0 ==>
                IsLiveOperator(after, o) && IsWeighable(reg, v)
  {
    assert IsLiveOperator(after, operator);
    forall o | IsLiveOperator(before, o) ensures IsLiveOperator(after, o) {
      var i :| 0 <= i < |before| && before[i].IsLive() && before[i].operator == o;
      assert after[i].IsLive() && after[i].operator == o;
    }
    forall o: Pubkey, v: Pubkey, view: StakeView | Recorded(ledger, operator, vault, worth)(o, v, view) != 0
      ensures IsLiveOperator(after, o) && IsWeighable(reg, v)
    {
      if o == operator && v == vault {
        assert worth(view) != 0 && (view == ThisEpoch || view == NextEpoch);
      } else {
        assert ledger(o, v, view) != 0;
      }
    }
  }

  lemma CrankedVaultWeighable(st: NcnState, vault: Pubkey, isActive: bool, totalSecurity: U64, coolingDown: U64)
    requires RegistryOk(st.registry)
    requires WeightedDelegation(st.registry, vault, isActive, totalSecurity, coolingDown).Ok?
    ensures var weighted := WeightedDelegation(st.registry, vault, isActive, totalSecurity, coolingDown);
            !IsWeighable(st.registry, vault) ==> weighted.value == (0, 0)
  {
    WeightedInRange(st.registry, vault, isActive, totalSecurity, coolingDown);
    var slot := VaultSlot(st.registry, vault).value;
    assert st.registry.vaults[slot].vault == vault;
  }

  lemma CrankedOperatorMatches(suite: Suite, st: NcnState, ledger: Ledger, ins: Instruction)
    requires Sound(st) && Inv(suite, st) && LedgerOk(st, ledger)
    requires ins.SnapshotDelegation? && Execute(suite, st, ins).Ok?
    ensures var at := FindOperator(st.snapshot.value.slots, ins.operator, 0);
            && at.Some? && Step(suite, st, ins).snapshot.Some? && at.value < |Step(suite, st, ins).snapshot.value.slots|
            && OperatorMatches(st.registry, LedgerStep(suite, st, ins, ledger),
                               Step(suite, st, ins).snapshot.value.slots[at.value])
  {
    var v, reg := st.snapshot.value, st.registry;
    var at := FindOperator(v.slots, ins.operator, 0).value;
    var op := v.slots[at];
    assert SlotOk(suite, op, v, st.accounts);
    assert OperatorMatches(reg, ledger, op);
    WeightedInRange(reg, ins.vault, ins.isActive, ins.totalSecurity, ins.coolingDown);
    WeightedIsWorth(reg, ins.vault, ins.isActive, ins.totalSecurity, ins.coolingDown);
    var weighted := WeightedDelegation(reg, ins.vault, ins.isActive, ins.totalSecurity, ins.coolingDown).value;
    var slot, weightBps := VaultSlot(reg, ins.vault).value, ListedWeight(reg, ins.vault);
    UpdatedOperatorMatches(reg, ledger, op, st.clock, slot, weighted, v.minimumStake, ins.vault,
                           view => DelegationWorth(weightBps, ins.isActive, ins.totalSecurity, ins.coolingDown, view));
    assert LedgerStep(suite, st, ins, ledger) ==
      Recorded(ledger, op.operator, ins.vault,
               view => DelegationWorth(weightBps, ins.isActive, ins.totalSecurity, ins.coolingDown, view));
  }

  lemma UpdatedOperatorMatches(reg: Registry, ledger: Ledger, op: OperatorSnapshot, clock: U64, slot: U64,
                               weighted: (U128, U128), minimumStake: U128, vault: Pubkey, worth: StakeView -> nat)
    requires RegistryOk(reg) && OperatorMatches(reg, ledger, op) && op.IsLive() && ContributionsOk(op.vaultContributions)
    requires VaultSlot(reg, vault) == Ok(slot) && (!Weighable(reg, slot) ==> weighted == (0, 0))
    requires worth(ThisEpoch) == weighted.0 && worth(NextEpoch) == weighted.1
    requires DelegationSnapshotted(op, clock, slot, weighted.0, weighted.1, minimumStake).Ok?
    ensures OperatorMatches(reg, Recorded(ledger, op.operator, vault, worth),
                            DelegationSnapshotted(op, clock, slot, weighted.0, weighted.1, minimumStake).value)
  {
    var after := DelegationSnapshotted(op, clock, slot, weighted.0, weighted.1, minimumStake).value;
    var ledger' := Recorded(ledger, op.operator, vault, worth);
    forall s: nat, view: StakeView | s < MAX_VAULTS
      ensures WeightInSlot(after.vaultContributions, s, view) == SlotLedger(reg, ledger', after.operator, s, view)
    {
      CrankedContributions(op, clock, slot, weighted.0, weighted.1, minimumStake, s, view);
      assert WeightInSlot(op.vaultContributions, s, view) == SlotLedger(reg, ledger, op.operator, s, view);
      if Weighable(reg, s) && s != slot {
        assert reg.vaults[s].vault != vault;
      }
    }
  }

  lemma EntryRecords(op: OperatorSnapshot, clock: U64, slot: U64, weighted: (U128, U128), minimumStake: U128)
    requires ContributionsOk(op.vaultContributions) && slot < MAX_VAULTS
    requires DelegationSnapshotted(op, clock, slot, weighted.0, weighted.1, minimumStake).Ok?
    ensures var after := DelegationSnapshotted(op, clock, slot, weighted.0, weighted.1, minimumStake).value;
            && after.lastSnapshotSlot == clock
            && WeightInSlot(after.vaultContributions, slot, ThisEpoch) == weighted.0
            && WeightInSlot(after.vaultContributions, slot, NextEpoch) == weighted.1
            && (after.hasMinimumStake <==> after.stakeWeight >= minimumStake)
            && (after.hasMinimumStakeNextEpoch <==> after.nextEpochStakeWeight >= minimumStake)
  {
    CrankedContributions(op, clock, slot, weighted.0, weighted.1, minimumStake, slot, ThisEpoch);
    CrankedContributions(op, clock, slot, weighted.0, weighted.1, minimumStake, slot, NextEpoch);
  }

  lemma CrankedEntry(suite: Suite, st: NcnState, ins: Instruction)
    requires Sound(st) && ins.SnapshotDelegation? && Execute(suite, st, ins).Ok?
    ensures st.snapshot.Some? && FindOperator(st.snapshot.value.slots, ins.operator, 0).Some?
    ensures VaultSlot(st.registry, ins.vault).Ok? && Step(suite, st, ins).snapshot.Some?
    ensures WeightedDelegation(st.registry, ins.vault, ins.isActive, ins.totalSecurity, ins.coolingDown).Ok?
    ensures var v, w := st.snapshot.value, Step(suite, st, ins).snapshot.value;
            var at, slot := FindOperator(v.slots, ins.operator, 0).value, VaultSlot(st.registry, ins.vault).value;
            var weighted := WeightedDelegation(st.registry, ins.vault, ins.isActive, ins.totalSecurity, ins.coolingDown).value;
            && w.lastSnapshotSlot == st.clock && |w.slots| == |v.slots| && w.slots == v.slots[at := w.slots[at]]
            && DelegationSnapshotted(v.slots[at], st.clock, slot, weighted.0, weighted.1, v.minimumStake) == Ok(w.slots[at])
  {}

  /** What a successful crank leaves in the operator's entry: under the vault's
      registry slot the delegation scaled by the listed weight of its mint, the
      floor flags exactly as the new totals stand, and the clock as its mark. */
  lemma CrankRecords(suite: Suite, st: NcnState, ins: Instruction)
    requires Sound(st) && Inv(suite, st) && ins.SnapshotDelegation? && Execute(suite, st, ins).Ok?
    ensures st.snapshot.Some? && FindOperator(st.snapshot.value.slots, ins.operator, 0).Some?
    ensures VaultSlotFrom(st.registry.vaults, ins.vault, 0).Some? && Step(suite, st, ins).snapshot.Some?
    ensures var v, w := st.snapshot.value, Step(suite, st, ins).snapshot.value;
            var at, slot := FindOperator(v.slots, ins.operator, 0).value, VaultSlotFrom(st.registry.vaults, ins.vault, 0).value;
            var bps := ListedWeight(st.registry, ins.vault);
            && w.slots == v.slots[at := w.slots[at]] && w.lastSnapshotSlot == st.clock == w.slots[at].lastSnapshotSlot
            && WeightInSlot(w.slots[at].vaultContributions, slot, ThisEpoch)
               == (if ins.isActive then ins.totalSecurity * bps / 10_000 else 0)
            && WeightInSlot(w.slots[at].vaultContributions, slot, NextEpoch)
               == (if ins.isActive then (ins.totalSecurity - ins.coolingDown) * bps / 10_000 else 0)
            && (w.slots[at].hasMinimumStake <==> w.slots[at].stakeWeight >= v.minimumStake)
            && (w.slots[at].hasMinimumStakeNextEpoch <==> w.slots[at].nextEpochStakeWeight >= v.minimumStake)
  {
    var v, reg := st.snapshot.value, st.registry;
    CrankedEntry(suite, st, ins);
    var at, slot := FindOperator(v.slots, ins.operator, 0).value, VaultSlot(reg, ins.vault).value;
    assert SlotOk(suite, v.slots[at], v, st.accounts);
    WeightedInRange(reg, ins.vault, ins.isActive, ins.totalSecurity, ins.coolingDown);
    WeightedIsWorth(reg, ins.vault, ins.isActive, ins.totalSecurity, ins.coolingDown);
    EntryRecords(v.slots[at], st.clock, slot,
                 WeightedDelegation(reg, ins.vault, ins.isActive, ins.totalSecurity, ins.coolingDown).value, v.minimumStake);
  }

  lemma LedgerStepKeeps(suite: Suite, st: NcnState, ledger: Ledger, ins: Instruction)
    requires suite.Lawful() && Sound(st) && Inv(suite, st) && LedgerOk(st, ledger)
    ensures LedgerOk(Step(suite, st, ins), LedgerStep(suite, st, ins, ledger))
  {
    if Execute(suite, st, ins).Ok? {
      match ins
      case Tick(_) =>
      case ReallocSnapshot(minimumStake) =>
      case RegisterOperator(_, _, _, _, _, _) => NewOperatorLedger(suite, st, ledger, ins);
      case UpdateOperatorKeys(_, _, _, _) => RotationLedger(suite, st, ledger, ins);
      case RemoveOperator(_) => RemovalLedger(suite, st, ledger, ins);
      case RegisterStMint(mint, weightBps) => MintRegistrationKeeps(st.registry, mint, weightBps);
      case RegisterVault(vault, mint, vaultIndex) => NewVaultLedger(st, ledger, vault, mint, vaultIndex, st.clock);
      case SnapshotDelegation(_, _, _, _, _) => CrankLedger(suite, st, ledger, ins);
    }
  }

  lemma {:induction false} RunLedger(suite: Suite, program: seq<Instruction>)
    requires suite.Lawful()
    ensures LedgerOk(Run(suite, program), Latest(suite, program))
  {
    if program != [] {
      var before := program[..|program| - 1];
      RunLedger(suite, before);
      RunInvariant(suite, before);
      LedgerStepKeeps(suite, Run(suite, before), Latest(suite, before), program[|program| - 1]);
    }
  }

  // ----- where weights come from -----

  lemma StepListsMint(suite: Suite, st: NcnState, ins: Instruction, i: nat)
    requires Sound(st) && i < |st.registry.mints|
    ensures var before, after := st.registry.mints, Step(suite, st, ins).registry.mints;
            && |after| == |before|
            && (after[i] == before[i]
                || (ins == RegisterStMint(after[i].stMint, after[i].weightBps) && Execute(suite, st, ins).Ok?))
  {}

  /** A listed mint carries the weight some registration of the run gave it. */
  lemma {:induction false} WeightAsRegistered(suite: Suite, program: seq<Instruction>, i: nat) returns (k: nat)
    requires i < |Run(suite, program).registry.mints| && Run(suite, program).registry.mints[i].stMint != DEFAULT_PUBKEY
    ensures k < |program| && Execute(suite, Run(suite, program[..k]), program[k]).Ok?
    ensures program[k] == RegisterStMint(Run(suite, program).registry.mints[i].stMint, Run(suite, program).registry.mints[i].weightBps)
  {
    assert program != [];
    var n := |program| - 1;
    MintListsHaveOneLength(suite, Run(suite, program[..n]), program[n]);
    StepListsMint(suite, Run(suite, program[..n]), program[n], i);
    if Run(suite, program[..n]).registry.mints[i] == Run(suite, program).registry.mints[i] {
      k := WeightAsRegistered(suite, program[..n], i);
      assert program[..n][..k] == program[..k];
    } else {
      k := n;
    }
  }

  lemma MintListsHaveOneLength(suite: Suite, st: NcnState, ins: Instruction)
    requires Sound(st)
    ensures |Step(suite, st, ins).registry.mints| == |st.registry.mints|
  {}

  // ----- main result -----

  /** What each registry slot's vault last weighed for the operator. */
  function LatestWeights(reg: Registry, ledger: Ledger, operator: Pubkey, view: StakeView): seq<nat> {
    seq(MAX_VAULTS, slot requires 0 <= slot => SlotLedger(reg, ledger, operator, slot, view))
  }

  /** In every reachable state a live operator's two totals are the sums, over
      the registry, of the weights its latest cranks recorded; a vault outside
      the registry has recorded nothing. */
  lemma StakeIsSumOfLatestCranks(suite: Suite, program: seq<Instruction>, i: nat)
    requires suite.Lawful() && Run(suite, program).snapshot.Some?
    requires i < |Run(suite, program).snapshot.value.slots| && Run(suite, program).snapshot.value.slots[i].IsLive()
    ensures var st, ledger := Run(suite, program), Latest(suite, program);
            var op := st.snapshot.value.slots[i];
            && op.stakeWeight == NatSum(LatestWeights(st.registry, ledger, op.operator, ThisEpoch), MAX_VAULTS)
            && op.nextEpochStakeWeight == NatSum(LatestWeights(st.registry, ledger, op.operator, NextEpoch), MAX_VAULTS)
            && (forall vault: Pubkey, view: StakeView :: ledger(op.operator, vault, view) != 0 ==> IsWeighable(st.registry, vault))
  {
    RunInvariant(suite, program);
    RunLedger(suite, program);
    StakeInView(suite, Run(suite, program), Latest(suite, program), i);
  }

  lemma StakeInView(suite: Suite, st: NcnState, ledger: Ledger, i: nat)
    requires Inv(suite, st) && LedgerOk(st, ledger) && st.snapshot.Some?
    requires i < |st.snapshot.value.slots| && st.snapshot.value.slots[i].IsLive()
    ensures var op := st.snapshot.value.slots[i];
            && op.stakeWeight == NatSum(LatestWeights(st.registry, ledger, op.operator, ThisEpoch), MAX_VAULTS)
            && op.nextEpochStakeWeight == NatSum(LatestWeights(st.registry, ledger, op.operator, NextEpoch), MAX_VAULTS)
  {
    var op := st.snapshot.value.slots[i];
    assert SlotOk(suite, op, st.snapshot.value, st.accounts);
    assert OperatorMatches(st.registry, ledger, op);
    TotalIsSumOverSlots(op.vaultContributions, ThisEpoch);
    TotalIsSumOverSlots(op.vaultContributions, NextEpoch);
    assert SlotWeights(op.vaultContributions, ThisEpoch, MAX_VAULTS) == LatestWeights(st.registry, ledger, op.operator, ThisEpoch);
    assert SlotWeights(op.vaultContributions, NextEpoch, MAX_VAULTS) == LatestWeights(st.registry, ledger, op.operator, NextEpoch);
  }

  /** A registered vault with a mint of its own keeps its entry for good. */
  lemma {:induction false} VaultsNeverMove(suite: Suite, program: seq<Instruction>, i: nat, j: nat, slot: nat)
    requires suite.Lawful() && i <= j <= |program|
    requires Weighable(Run(suite, program[..i]).registry, slot)
    ensures Weighable(Run(suite, program[..j]).registry, slot)
    ensures Run(suite, program[..j]).registry.vaults[slot] == Run(suite, program[..i]).registry.vaults[slot]
    decreases j
  {
    if i < j {
      VaultsNeverMove(suite, program, i, j - 1, slot);
      RunExtends(suite, program, j);
      RunInvariant(suite, program[..j - 1]);
      StepKeepsWeighable(suite, Run(suite, program[..j - 1]), program[j - 1], slot);
    }
  }

  lemma StepKeepsWeighable(suite: Suite, st: NcnState, ins: Instruction, slot: nat)
    requires Sound(st) && RegistryOk(st.registry) && Weighable(st.registry, slot)
    ensures Weighable(Step(suite, st, ins).registry, slot)
    ensures Step(suite, st, ins).registry.vaults[slot] == st.registry.vaults[slot]
  {
    if ins.RegisterVault? && Execute(suite, st, ins).Ok? {
      VaultRegistrationKeeps(st.registry, ins.vault, ins.mint, ins.vaultIndex, st.clock);
    }
  }

  /** Does the instruction put a new vault where a registered one sits? The
      entry must be the first under the default mint. */
  predicate Overwrites(st: NcnState, ins: Instruction, slot: nat) {
    && ins.RegisterVault?
    && MintIndex(st.registry.mints, ins.mint, 0).Some?
    && !VaultListed(st.registry.vaults, ins.vault)
    && FreeVaultIndex(st.registry.vaults, 0) == Some(slot)
  }

  lemma StepMovesVaultIff(suite: Suite, st: NcnState, ins: Instruction, slot: nat)
    requires Sound(st) && slot < MAX_ENTRIES
    ensures Step(suite, st, ins).registry.vaults[slot] == st.registry.vaults[slot] <==> !Overwrites(st, ins, slot)
  {
    if Overwrites(st, ins, slot) {
      assert st.registry.vaults[slot].vault != ins.vault;
    }
  }

  /** The entry at every moment from i to j. */
  ghost predicate EntryConstant(suite: Suite, program: seq<Instruction>, i: nat, j: nat, slot: nat)
    requires i <= j <= |program| && slot < MAX_ENTRIES
  {
    forall k :: i <= k <= j ==>
      Run(suite, program[..k]).registry.vaults[slot] == Run(suite, program[..i]).registry.vaults[slot]
  }

  ghost predicate NeverOverwritten(suite: Suite, program: seq<Instruction>, i: nat, j: nat, slot: nat)
    requires i <= j <= |program|
  {
    forall k :: i <= k < j ==> !Overwrites(Run(suite, program[..k]), program[k], slot)
  }

  lemma RunMovesVaultIff(suite: Suite, program: seq<Instruction>, j: nat, slot: nat)
    requires 0 < j <= |program| && slot < MAX_ENTRIES
    ensures Run(suite, program[..j]).registry.vaults[slot] == Run(suite, program[..j - 1]).registry.vaults[slot] <==>
            !Overwrites(Run(suite, program[..j - 1]), program[j - 1], slot)
  {
    RunExtends(suite, program, j);
    StepMovesVaultIff(suite, Run(suite, program[..j - 1]), program[j - 1], slot);
  }

  lemma EntryConstantExtends(suite: Suite, program: seq<Instruction>, i: nat, j: nat, slot: nat)
    requires i < j <= |program| && slot < MAX_ENTRIES
    ensures EntryConstant(suite, program, i, j, slot) <==>
            && EntryConstant(suite, program, i, j - 1, slot)
            && Run(suite, program[..j]).registry.vaults[slot] == Run(suite, program[..j - 1]).registry.vaults[slot]
  {
    if EntryConstant(suite, program, i, j, slot) {
      assert Run(suite, program[..j]).registry.vaults[slot] == Run(suite, program[..i]).registry.vaults[slot];
      assert Run(suite, program[..j - 1]).registry.vaults[slot] == Run(suite, program[..i]).registry.vaults[slot];
    }
  }

  /** Exactly when a vault's slot is stable: an entry keeps its contents through
      a stretch of a run iff no step of it overwrites the entry. */
  lemma {:induction false} VaultStaysIff(suite: Suite, program: seq<Instruction>, i: nat, j: nat, slot: nat)
    requires i <= j <= |program| && slot < MAX_ENTRIES
    ensures EntryConstant(suite, program, i, j, slot) <==> NeverOverwritten(suite, program, i, j, slot)
    decreases j
  {
    if i < j {
      VaultStaysIff(suite, program, i, j - 1, slot);
      EntryConstantExtends(suite, program, i, j, slot);
      RunMovesVaultIff(suite, program, j, slot);
    }
  }

  /** And it can happen: of two vaults registered under the default mint while
      the mint table has room, the second takes the first one's slot. */
  lemma DefaultMintVaultDropped(suite: Suite, first: Pubkey, second: Pubkey)
    requires first != second && first != DEFAULT_PUBKEY && second != DEFAULT_PUBKEY
    ensures var one := [RegisterVault(first, DEFAULT_PUBKEY, 0)];
            && VaultSlot(Run(suite, one).registry, first) == Ok(0)
            && VaultSlot(Run(suite, one + [RegisterVault(second, DEFAULT_PUBKEY, 1)]).registry, first) == Err(VaultNotInRegistry)
  {
    var one := [RegisterVault(first, DEFAULT_PUBKEY, 0)];
    var two := one + [RegisterVault(second, DEFAULT_PUBKEY, 1)];
    assert two[..0] == [] && two[..1] == one && two[..2] == two;
    RunExtends(suite, two, 1);
    RunExtends(suite, two, 2);
    assert MintIndex(EmptyMints(), DEFAULT_PUBKEY, 0) == Some(0);
    var entry := VaultEntry(first, DEFAULT_PUBKEY, 0, 0);
    assert Run(suite, one).registry == Registry(EmptyMints(), EmptyVaults()[0 := entry]) by {
      assert !VaultListed(EmptyVaults(), first);
      assert FreeVaultIndex(EmptyVaults(), 0) == Some(0);
    }
    var vaults := EmptyVaults()[0 := entry];
    assert !VaultListed(vaults, second) && FreeVaultIndex(vaults, 0) == Some(0);
  }
}
