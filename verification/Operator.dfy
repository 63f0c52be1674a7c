/**
 One operator's entry in the snapshot (core/src/snapshot.rs, OperatorSnapshot)
 and its per-vault stake contributions. The entry is copied out of the snapshot,
 changed and written back, so it is a value here.
 */
module Operator {
  import opened Prelude
  import opened NcnErrors
  import opened Sums

  const MAX_VAULTS: nat := 16
  const EMPTY_SLOT: U64 := U64_MAX

  datatype VaultContribution = VaultContribution(
    registrySlot: U64, stakeWeight: U128, nextEpochStakeWeight: U128)
  {
    predicate IsEmpty() { registrySlot == EMPTY_SLOT }
  }

  const EMPTY_CONTRIBUTION := VaultContribution(EMPTY_SLOT, 0, 0)

  /** Which of the two stored weights. */
  datatype StakeView = ThisEpoch | NextEpoch

  function WeightOf(c: VaultContribution, view: StakeView): nat {
    if view.ThisEpoch? then c.stakeWeight else c.nextEpochStakeWeight
  }

  datatype OperatorSnapshot = OperatorSnapshot(
    operator: Pubkey,
    g1Pubkey: Bytes32,
    lastSnapshotSlot: U64,
    isActive: bool,
    ncnOperatorIndex: U64,
    hasMinimumStake: bool,
    hasMinimumStakeNextEpoch: bool,
    stakeWeight: U128,
    nextEpochStakeWeight: U128,
    vaultContributions: seq<VaultContribution>)
  {
    predicate IsLive() { ncnOperatorIndex != EMPTY_SLOT }
  }

  function NoContributions(): (cs: seq<VaultContribution>)
    ensures |cs| == MAX_VAULTS && forall i :: 0 <= i < |cs| ==> cs[i] == EMPTY_CONTRIBUTION
  {
    seq(MAX_VAULTS, _ => EMPTY_CONTRIBUTION)
  }

  /** An empty or tombstoned slot. */
  function EmptyOperator(): OperatorSnapshot {
    OperatorSnapshot(DEFAULT_PUBKEY, ZERO32, 0, false, EMPTY_SLOT, false, false, 0, 0, NoContributions())
  }

  function NewOperator(operator: Pubkey, isActive: bool, index: U64, g1Pubkey: Bytes32): OperatorSnapshot {
    OperatorSnapshot(operator, g1Pubkey, 0, isActive, index, false, false, 0, 0, NoContributions())
  }

  function HasMinimumStakeNow(op: OperatorSnapshot, currentEpoch: U64, snapshotEpoch: U64)
    : Result<bool, NcnError>
  {
    if currentEpoch < snapshotEpoch then
      Err(ArithmeticUnderflow)
    else if currentEpoch == snapshotEpoch then
      Ok(op.hasMinimumStake)
    else if currentEpoch == snapshotEpoch + 1 then
      Ok(op.hasMinimumStakeNextEpoch)
    else
      Err(OperatorSnapshotOutdated)
  }

  /** Raw delegation for this and the next epoch. */
  function CalculateStakeWeights(totalSecurity: U64, coolingDown: U64): Result<(U128, U128), NcnError> {
    if coolingDown > totalSecurity then Err(ArithmeticUnderflow) else Ok((totalSecurity, totalSecurity - coolingDown))
  }

  // ----- contributions as a map from registry slots -----

  /** Entries are empty or keyed by distinct registry slots below 16. */
  ghost predicate ContributionsOk(cs: seq<VaultContribution>) {
    && |cs| == MAX_VAULTS
    && (forall i :: 0 <= i < |cs| && !cs[i].IsEmpty() ==> cs[i].registrySlot < MAX_VAULTS)
    && (forall i, j :: 0 <= i < j < |cs| && !cs[i].IsEmpty() ==> cs[i].registrySlot != cs[j].registrySlot)
  }

  /** The weight the first n entries record for a registry slot. */
  function SlotWeight(cs: seq<VaultContribution>, slot: nat, view: StakeView, n: nat): nat
    requires n <= |cs|
  {
    if n == 0 then 0
    else if cs[n - 1].registrySlot == slot then WeightOf(cs[n - 1], view)
    else SlotWeight(cs, slot, view, n - 1)
  }

  function WeightInSlot(cs: seq<VaultContribution>, slot: nat, view: StakeView): nat {
    SlotWeight(cs, slot, view, |cs|)
  }

  /** What the recomputation loop adds up. */
  function ContributionWeights(cs: seq<VaultContribution>, view: StakeView): seq<nat> {
    seq(|cs|, i requires 0 <= i < |cs| => if cs[i].IsEmpty() then 0 else WeightOf(cs[i], view))
  }

  function TotalWeight(cs: seq<VaultContribution>, view: StakeView): nat {
    NatSum(ContributionWeights(cs, view), |cs|)
  }

  function SlotWeights(cs: seq<VaultContribution>, view: StakeView, n: nat): seq<nat>
    requires n <= |cs|
  {
    seq(MAX_VAULTS, slot requires 0 <= slot => SlotWeight(cs, slot, view, n))
  }

  /** The running totals are the sum over registry slots of the map. */
  lemma TotalIsSumOverSlots(cs: seq<VaultContribution>, view: StakeView)
    requires ContributionsOk(cs)
    ensures TotalWeight(cs, view) == NatSum(SlotWeights(cs, view, MAX_VAULTS), MAX_VAULTS)
  {
    PrefixTotalIsSlotSum(cs, view, MAX_VAULTS);
  }

  lemma {:induction false} PrefixTotalIsSlotSum(cs: seq<VaultContribution>, view: StakeView, n: nat)
    requires ContributionsOk(cs) && n <= MAX_VAULTS
    ensures NatSum(ContributionWeights(cs, view), n) == NatSum(SlotWeights(cs, view, n), MAX_VAULTS)
  {
    if n == 0 {
      NatSumBound(SlotWeights(cs, view, 0), MAX_VAULTS, 0);
    } else {
      PrefixTotalIsSlotSum(cs, view, n - 1);
      var c := cs[n - 1];
      var before, after := SlotWeights(cs, view, n - 1), SlotWeights(cs, view, n);
      if c.IsEmpty() {
        assert before == after;
      } else {
        UnseenSlotWeighsNothing(cs, c.registrySlot, view, n - 1);
        assert after == before[c.registrySlot := WeightOf(c, view)];
        NatSumUpdate(before, c.registrySlot, WeightOf(c, view), MAX_VAULTS);
      }
    }
  }

  lemma {:induction false} UnseenSlotWeighsNothing(cs: seq<VaultContribution>, slot: nat, view: StakeView, n: nat)
    requires n <= |cs|
    requires forall i :: 0 <= i < n ==> cs[i].registrySlot != slot
    ensures SlotWeight(cs, slot, view, n) == 0
  {
    if n > 0 {
      UnseenSlotWeighsNothing(cs, slot, view, n - 1);
    }
  }

  // ----- the upsert -----

  /** First index in cs[from..] that is keyed by `slot`. */
  function FirstKeyed(cs: seq<VaultContribution>, slot: U64, from: nat): (r: Option<nat>)
    requires from <= |cs|
    ensures r.Some? ==> from <= r.value < |cs| && cs[r.value].registrySlot == slot
    ensures r.Some? ==> forall i :: from <= i < r.value ==> cs[i].registrySlot != slot
    ensures r.None? ==> forall i :: from <= i < |cs| ==> cs[i].registrySlot != slot
    decreases |cs| - from
  {
    if from == |cs| then None
    else if cs[from].registrySlot == slot then Some(from)
    else FirstKeyed(cs, slot, from + 1)
  }

  function UpsertPosition(cs: seq<VaultContribution>, slot: U64): Option<nat> {
    var keyed := FirstKeyed(cs, slot, 0);
    if keyed.Some? then keyed else FirstKeyed(cs, EMPTY_SLOT, 0)
  }

  /** Both totals, unless one of them leaves the u128 range. */
  function Totals(cs: seq<VaultContribution>): Result<(U128, U128), NcnError> {
    var total, next := TotalWeight(cs, ThisEpoch), TotalWeight(cs, NextEpoch);
    if total > U128_MAX || next > U128_MAX then Err(ArithmeticOverflow) else Ok((total, next))
  }

  function WithTotals(op: OperatorSnapshot, cs: seq<VaultContribution>, totals: (U128, U128),
                      minimumStake: U128, currentSlot: U64): OperatorSnapshot
  {
    op.(vaultContributions := cs,
        stakeWeight := totals.0,
        nextEpochStakeWeight := totals.1,
        hasMinimumStake := totals.0 >= minimumStake,
        hasMinimumStakeNextEpoch := totals.1 >= minimumStake,
        lastSnapshotSlot := currentSlot)
  }

  /** A delegation snapshot of the vault in `registrySlot`. */
  function DelegationSnapshotted(op: OperatorSnapshot, currentSlot: U64, registrySlot: U64,
                                 stake: U128, nextStake: U128, minimumStake: U128)
    : Result<OperatorSnapshot, NcnError>
  {
    var position := UpsertPosition(op.vaultContributions, registrySlot);
    if !op.isActive then
      Err(OperatorSnapshotIsNotActive)
    else if registrySlot >= MAX_VAULTS || position.None? then
      Err(TooManyVaultOperatorDelegations)
    else
      var cs := op.vaultContributions[position.value := VaultContribution(registrySlot, stake, nextStake)];
      var totals :- Totals(cs);
      Ok(WithTotals(op, cs, totals, minimumStake, currentSlot))
  }

  method FindContribution(cs: seq<VaultContribution>, slot: U64) returns (r: Option<nat>)
    ensures r == FirstKeyed(cs, slot, 0)
  {
    var i := 0;
    while i < |cs|
      invariant 0 <= i <= |cs|
      invariant FirstKeyed(cs, slot, 0) == FirstKeyed(cs, slot, i)
    {
      if cs[i].registrySlot == slot {
        return Some(i);
      }
      i := i + 1;
    }
    r := None;
  }

  method SnapshotVaultOperatorDelegation(op: OperatorSnapshot, currentSlot: U64, registrySlot: U64,
                                         stake: U128, nextStake: U128, minimumStake: U128)
    returns (r: Result<OperatorSnapshot, NcnError>)
    ensures r == DelegationSnapshotted(op, currentSlot, registrySlot, stake, nextStake, minimumStake)
  {
    if !op.isActive {
      return Err(OperatorSnapshotIsNotActive);
    }
    if registrySlot >= MAX_VAULTS {
      return Err(TooManyVaultOperatorDelegations);
    }
    var position := FindContribution(op.vaultContributions, registrySlot);
    if position.None? {
      position := FindContribution(op.vaultContributions, EMPTY_SLOT);
    }
    if position.None? {
      return Err(TooManyVaultOperatorDelegations);
    }
    var cs := op.vaultContributions[position.value := VaultContribution(registrySlot, stake, nextStake)];

    var totals := SumContributions(cs);
    if totals.Err? {
      return Err(totals.error);
    }
    r := Ok(WithTotals(op, cs, totals.value, minimumStake, currentSlot));
  }

  method SumContributions(cs: seq<VaultContribution>) returns (r: Result<(U128, U128), NcnError>)
    ensures r == Totals(cs)
  {
    var total: U128, nextTotal: U128 := 0, 0;
    ghost var weights, nextWeights := ContributionWeights(cs, ThisEpoch), ContributionWeights(cs, NextEpoch);
    var i := 0;
    while i < |cs|
      invariant 0 <= i <= |cs|
      invariant total == NatSum(weights, i) && nextTotal == NatSum(nextWeights, i)
    {
      if !cs[i].IsEmpty() {
        NatSumPrefixesGrow(weights, i + 1, |cs|);
        NatSumPrefixesGrow(nextWeights, i + 1, |cs|);
        if total + cs[i].stakeWeight > U128_MAX || nextTotal + cs[i].nextEpochStakeWeight > U128_MAX {
          return Err(ArithmeticOverflow);
        }
        total := total + cs[i].stakeWeight;
        nextTotal := nextTotal + cs[i].nextEpochStakeWeight;
      }
      i := i + 1;
    }
    r := Ok((total, nextTotal));
  }

  // ----- the array is never full -----

  /** By pigeonhole: sixteen distinct keys below sixteen leave none out. */
  lemma UpsertNeverFull(cs: seq<VaultContribution>, slot: U64)
    requires ContributionsOk(cs) && slot < MAX_VAULTS
    ensures UpsertPosition(cs, slot).Some?
  {
    if UpsertPosition(cs, slot).None? {
      var keys := set i | 0 <= i < |cs| :: cs[i].registrySlot;
      DistinctKeysCount(cs, |cs|);
      var below := SlotsBelow(MAX_VAULTS);
      assert slot in below;
      assert keys <= below - {slot};
      SubsetIsSmaller(keys, below - {slot});
      assert false;
    }
  }

  lemma {:induction false} DistinctKeysCount(cs: seq<VaultContribution>, n: nat)
    requires n <= |cs|
    requires forall i, j :: 0 <= i < j < n ==> cs[i].registrySlot != cs[j].registrySlot
    ensures |set i | 0 <= i < n :: cs[i].registrySlot| == n
  {
    if n > 0 {
      DistinctKeysCount(cs, n - 1);
      var shorter := set i | 0 <= i < n - 1 :: cs[i].registrySlot;
      assert (set i | 0 <= i < n :: cs[i].registrySlot) == shorter + {cs[n - 1].registrySlot};
    }
  }

  ghost function SlotsBelow(n: nat): (s: set<U64>)
    requires n <= MAX_VAULTS
    ensures |s| == n
    ensures forall k: U64 :: k in s <==> k < n
  {
    if n == 0 then {} else SlotsBelow(n - 1) + {n - 1}
  }

  lemma SubsetIsSmaller<T>(a: set<T>, b: set<T>)
    requires a <= b
    ensures |a| <= |b|
  {
    assert b == a + (b - a);
  }

  /** The upsert is a map update: the slot's weight becomes the new one, every
      other slot keeps its own, and the keys stay distinct. */
  lemma UpsertRefinesMap(cs: seq<VaultContribution>, slot: U64, stake: U128, nextStake: U128)
    requires ContributionsOk(cs) && slot < MAX_VAULTS
    ensures UpsertPosition(cs, slot).Some?
    ensures var after := cs[UpsertPosition(cs, slot).value := VaultContribution(slot, stake, nextStake)];
            && ContributionsOk(after)
            && (forall s: nat, view: StakeView :: s < MAX_VAULTS ==>
                  WeightInSlot(after, s, view) ==
                  if s == slot then WeightOf(VaultContribution(slot, stake, nextStake), view)
                  else WeightInSlot(cs, s, view))
  {
    UpsertNeverFull(cs, slot);
    var p := UpsertPosition(cs, slot).value;
    var after := cs[p := VaultContribution(slot, stake, nextStake)];
    forall s: nat, view: StakeView | s < MAX_VAULTS
      ensures WeightInSlot(after, s, view) ==
              if s == slot then WeightOf(after[p], view) else WeightInSlot(cs, s, view)
    {
      UpsertSlotWeight(cs, p, after[p], s, view, |cs|);
    }
  }

  lemma {:induction false} UpsertSlotWeight(cs: seq<VaultContribution>, p: nat, c: VaultContribution,
                                            s: nat, view: StakeView, n: nat)
    requires p < |cs| && n <= |cs| && s < MAX_VAULTS
    requires cs[p].registrySlot in {c.registrySlot, EMPTY_SLOT}
    requires forall i :: 0 <= i < |cs| && i != p ==> cs[i].registrySlot != c.registrySlot
    ensures s == c.registrySlot && p < n ==> SlotWeight(cs[p := c], s, view, n) == WeightOf(c, view)
    ensures s != c.registrySlot ==> SlotWeight(cs[p := c], s, view, n) == SlotWeight(cs, s, view, n)
  {
    if n > 0 {
      UpsertSlotWeight(cs, p, c, s, view, n - 1);
    }
  }
}
