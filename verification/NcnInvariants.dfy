/**
 What every run of the NCN program keeps: the shape of the operator set and the
 agreement of the cached aggregate key with the plain sum of the live keys.
 */
module NcnInvariants {
  import opened Prelude
  import opened NcnErrors
  import opened ScalarField
  import opened Sums
  import opened Bls
  import opened Operator
  import opened SnapshotAccount
  import opened VaultRegistry
  import opened NcnProgram

  // ----- the invariant -----

  /** Recorded stake: the totals are the sums of the contributions, weights stay
      in u64 range, cool-down only lowers them and the flags respect the floor. */
  ghost predicate StakeOk(op: OperatorSnapshot, minimumStake: U128) {
    && ContributionsOk(op.vaultContributions)
    && (forall i :: 0 <= i < MAX_VAULTS ==>
          op.vaultContributions[i].nextEpochStakeWeight <= op.vaultContributions[i].stakeWeight <= U64_MAX)
    && op.stakeWeight == TotalWeight(op.vaultContributions, ThisEpoch)
    && op.nextEpochStakeWeight == TotalWeight(op.vaultContributions, NextEpoch)
    && (op.hasMinimumStake ==> op.stakeWeight >= minimumStake)
    && (op.hasMinimumStakeNextEpoch ==> op.nextEpochStakeWeight >= minimumStake)
  }

  ghost predicate LiveOk(suite: Suite, op: OperatorSnapshot, accounts: map<Pubkey, OperatorAccount>) {
    && op.operator in accounts
    && accounts[op.operator].g1Pubkey == op.g1Pubkey
    && op.isActive
    && suite.decompressG1(op.g1Pubkey).Some?
  }

  ghost predicate SlotOk(suite: Suite, op: OperatorSnapshot, v: SnapshotView, accounts: map<Pubkey, OperatorAccount>) {
    if op.IsLive() then
      LiveOk(suite, op, accounts) && StakeOk(op, v.minimumStake) && op.lastSnapshotSlot <= v.lastSnapshotSlot
    else
      op == EmptyOperator()
  }

  ghost predicate OperatorsDistinct(slots: seq<OperatorSnapshot>) {
    forall i, j :: 0 <= i < j < |slots| && slots[i].IsLive() && slots[j].IsLive() ==>
      slots[i].operator != slots[j].operator
  }

  ghost predicate ViewOk(suite: Suite, v: SnapshotView, accounts: map<Pubkey, OperatorAccount>, clock: U64) {
    && SlotsWellFormed(v.slots)
    && OperatorsDistinct(v.slots)
    && (forall i :: 0 <= i < |v.slots| ==> SlotOk(suite, v.slots[i], v, accounts))
    && v.operatorsRegistered == |accounts|
    && suite.decompressG1(v.apk).Some?
    && v.lastSnapshotSlot <= clock
  }

  ghost predicate Inv(suite: Suite, st: NcnState) {
    && RegistryOk(st.registry)
    && (st.snapshot.None? ==> st.accounts == map[])
    && (st.snapshot.Some? ==> ViewOk(suite, st.snapshot.value, st.accounts, st.clock))
  }

  /** How far the cached aggregate is from the plain sum. */
  function Drift(suite: Suite, v: SnapshotView): G1 {
    Sub(KeyPoint(suite, v.apk), LiveKeySum(suite, v.slots))
  }

  ghost predicate ApkAgrees(suite: Suite, v: SnapshotView) {
    suite.decompressG1(v.apk) == Some(LiveKeySum(suite, v.slots))
  }

  lemma DriftMeasuresAgreement(suite: Suite, v: SnapshotView)
    requires suite.decompressG1(v.apk).Some?
    ensures ApkAgrees(suite, v) <==> Drift(suite, v) == 0
  {
    var p, s := KeyPoint(suite, v.apk), LiveKeySum(suite, v.slots);
    SubLaws(p, s);
    AddLaws(0, s, 0);
    AddLaws(s, 0, 0);
    AddLaws(s, Neg(s), 0);
  }

  /** Adding or removing one point on both sides leaves the drift alone. */
  lemma DriftShift(p: G1, s: G1, k: G1)
    ensures Sub(Add(p, k), Add(s, k)) == Sub(p, s)
    ensures Sub(Sub(p, k), Sub(s, k)) == Sub(p, s)
  {}

  // ----- slots -----

  lemma LiveUnaffected(suite: Suite, v: SnapshotView, w: SnapshotView,
                       accounts: map<Pubkey, OperatorAccount>, accounts': map<Pubkey, OperatorAccount>, i: nat)
    requires |v.slots| == |w.slots| && i < |v.slots|
    requires SlotOk(suite, v.slots[i], v, accounts) && w.slots[i] == v.slots[i]
    requires v.lastSnapshotSlot <= w.lastSnapshotSlot && v.minimumStake == w.minimumStake
    requires v.slots[i].IsLive() ==>
               && v.slots[i].operator in accounts'
               && accounts'[v.slots[i].operator].g1Pubkey == accounts[v.slots[i].operator].g1Pubkey
    ensures SlotOk(suite, w.slots[i], w, accounts')
  {}

  lemma NewOperatorStakeOk(op: OperatorSnapshot, minimumStake: U128)
    requires op.vaultContributions == NoContributions()
    requires op.stakeWeight == 0 && op.nextEpochStakeWeight == 0
    requires !op.hasMinimumStake && !op.hasMinimumStakeNextEpoch
    ensures StakeOk(op, minimumStake)
  {
    NatSumBound(ContributionWeights(op.vaultContributions, ThisEpoch), MAX_VAULTS, 0);
    NatSumBound(ContributionWeights(op.vaultContributions, NextEpoch), MAX_VAULTS, 0);
  }

  // ----- initialization -----

  lemma InitializedOk(suite: Suite, minimumStake: U128, clock: U64)
    requires suite.Lawful()
    ensures ViewOk(suite, Initialized(minimumStake), map[], clock)
    ensures Drift(suite, Initialized(minimumStake)) == 0
  {
    ZeroDecodesToIdentity(suite);
    KeySumOfZeros(LivePoints(suite, EmptySlots()), MAX_OPERATORS);
  }

  // ----- registration -----

  lemma RegisteredKeeps(suite: Suite, st: NcnState, operator: Pubkey, index: U64, g1Key: Bytes32, g2Key: Bytes64,
                        signature: RawG1, connectionActive: bool)
    requires suite.Lawful() && Sound(st) && Inv(suite, st)
    requires Registered(suite, st, operator, index, g1Key, g2Key, signature, connectionActive).Ok?
    ensures var after := Registered(suite, st, operator, index, g1Key, g2Key, signature, connectionActive).value;
            && st.snapshot.Some? && after.snapshot.Some?
            && Inv(suite, after)
            && Drift(suite, after.snapshot.value) == Drift(suite, st.snapshot.value)
            && after.snapshot.value.operatorsRegistered == st.snapshot.value.operatorsRegistered + 1
  {
    var after := Registered(suite, st, operator, index, g1Key, g2Key, signature, connectionActive).value;
    var v, w := st.snapshot.value, after.snapshot.value;
    var op := NewOperator(operator, connectionActive, index, g1Key);
    NewSlotKeepsDrift(suite, v, index, op);
    assert w == v.(slots := v.slots[index := op], operatorsRegistered := w.operatorsRegistered,
                   lastSnapshotSlot := st.clock, generation := w.generation, apk := w.apk);
    NewSlotOk(suite, v, w, st.accounts, after.accounts, st.clock, index, op);
  }

  /** Filling an empty slot and adding its key to the aggregate. */
  lemma NewSlotKeepsDrift(suite: Suite, v: SnapshotView, index: nat, op: OperatorSnapshot)
    requires suite.Lawful() && index < |v.slots| && !v.slots[index].IsLive() && op.IsLive()
    requires suite.decompressG1(v.apk).Some? && ApkPlus(suite, v.apk, op.g1Pubkey).Ok?
    ensures suite.decompressG1(op.g1Pubkey).Some?
    ensures var apk := ApkPlus(suite, v.apk, op.g1Pubkey).value;
            suite.decompressG1(apk).Some? && Drift(suite, v.(slots := v.slots[index := op], apk := apk)) == Drift(suite, v)
  {
    ApkArithmetic(suite, v.apk, op.g1Pubkey);
    LiveKeySumUpdate(suite, v.slots, index, op);
    var p, s, k := KeyPoint(suite, v.apk), LiveKeySum(suite, v.slots), KeyPoint(suite, op.g1Pubkey);
    AddLaws(s, 0, 0);
    assert Sub(s, 0) == s;
    DriftShift(p, s, k);
  }

  lemma NewSlotOk(suite: Suite, v: SnapshotView, w: SnapshotView, before: map<Pubkey, OperatorAccount>,
                  after: map<Pubkey, OperatorAccount>, clock: U64, index: nat, op: OperatorSnapshot)
    requires ViewOk(suite, v, before, clock) && index < MAX_OPERATORS && !v.slots[index].IsLive()
    requires op == NewOperator(op.operator, true, index, op.g1Pubkey) && op.operator !in before
    requires op.operator in after && after == before[op.operator := after[op.operator]]
    requires after[op.operator].g1Pubkey == op.g1Pubkey && suite.decompressG1(op.g1Pubkey).Some?
    requires w == v.(slots := v.slots[index := op], operatorsRegistered := w.operatorsRegistered,
                     lastSnapshotSlot := clock, generation := w.generation, apk := w.apk)
    requires w.operatorsRegistered == v.operatorsRegistered + 1 && suite.decompressG1(w.apk).Some?
    ensures ViewOk(suite, w, after, clock)
  {
    NewOperatorStakeOk(op, v.minimumStake);
    forall i | 0 <= i < |w.slots| ensures SlotOk(suite, w.slots[i], w, after) {
      if i != index {
        LiveUnaffected(suite, v, w, before, after, i);
      }
    }
    forall i | 0 <= i < |v.slots| && v.slots[i].IsLive() ensures v.slots[i].operator != op.operator {
      assert SlotOk(suite, v.slots[i], v, before);
    }
  }

  // ----- removal -----

  lemma RemovedKeeps(suite: Suite, st: NcnState, operator: Pubkey)
    requires suite.Lawful() && Sound(st) && Inv(suite, st)
    requires Removed(suite, st, operator).Ok?
    ensures var after := Removed(suite, st, operator).value;
            && st.snapshot.Some? && after.snapshot.Some?
            && Inv(suite, after)
            && Drift(suite, after.snapshot.value) == Drift(suite, st.snapshot.value)
            && after.snapshot.value.operatorsRegistered == st.snapshot.value.operatorsRegistered
  {
    var after := Removed(suite, st, operator).value;
    var v, w := st.snapshot.value, after.snapshot.value;
    var i := FindOperator(v.slots, operator, 0).value;
    var key := v.slots[i].g1Pubkey;
    assert w.slots == v.slots[i := EmptyOperator()];
    forall j | 0 <= j < |w.slots| ensures SlotOk(suite, w.slots[j], w, after.accounts) {
      if j != i {
        LiveUnaffected(suite, v, w, st.accounts, after.accounts, j);
      }
    }
    assert SlotOk(suite, v.slots[i], v, st.accounts);
    LiveKeySumUpdate(suite, v.slots, i, EmptyOperator());
    var p, s, k := KeyPoint(suite, v.apk), LiveKeySum(suite, v.slots), KeyPoint(suite, key);
    AddLaws(Sub(s, k), 0, 0);
    if key == ZERO32 {
      ZeroDecodesToIdentity(suite);
      AddLaws(s, 0, 0);
    } else {
      ApkArithmetic(suite, v.apk, key);
      DriftShift(p, s, k);
    }
  }

  // ----- rotation -----

  /** The registration-count shortcut applied to an operator that is gone: a
      valid rotation by the only account ever created, none of whose slots is
      live any more. */
  predicate RotatesTombstone(suite: Suite, st: NcnState, ins: Instruction) {
    && ins.UpdateOperatorKeys? && ins.operator in st.accounts
    && st.snapshot.Some?
    && st.snapshot.value.operatorsRegistered == 1
    && st.snapshot.value.generation < U64_MAX
    && FindOperator(st.snapshot.value.slots, ins.operator, 0).None?
    && CheckRotationKeys(suite, ins.operator, ins.g1Key, ins.g2Key, ins.signature).Ok?
  }

  lemma RotatedKeyIsNonzero(suite: Suite, operator: Pubkey, g1Key: Bytes32, g2Key: Bytes64, signature: RawG1)
    requires CheckRotationKeys(suite, operator, g1Key, g2Key, signature).Ok?
    ensures suite.decompressG1(g1Key).Some? && KeyPoint(suite, g1Key) != 0
  {}

  lemma SingletonAccounts(accounts: map<Pubkey, OperatorAccount>, a: Pubkey, b: Pubkey)
    requires |accounts| == 1 && a in accounts && b in accounts
    ensures a == b
  {
    assert |accounts.Keys - {a}| == 0;
  }

  /** Writing the new key into the account and, if the operator is live, into
      its slot keeps the two in step. */
  lemma ReplacedKeysOk(suite: Suite, v: SnapshotView, w: SnapshotView, accounts: map<Pubkey, OperatorAccount>,
                       clock: U64, operator: Pubkey, account: OperatorAccount)
    requires ViewOk(suite, v, accounts, clock) && operator in accounts
    requires suite.decompressG1(account.g1Pubkey).Some? && suite.decompressG1(w.apk).Some?
    requires w == v.(apk := w.apk, generation := w.generation,
                     slots := KeyReplaced(v.slots, FindOperator(v.slots, operator, 0), account.g1Pubkey))
    ensures ViewOk(suite, w, accounts[operator := account], clock)
  {
    var after := accounts[operator := account];
    var at := FindOperator(v.slots, operator, 0);
    forall i | 0 <= i < |w.slots| ensures SlotOk(suite, w.slots[i], w, after) {
      ReplacedSlotOk(suite, v, w, accounts, operator, account, at, i);
    }
    SameOperatorsDistinct(v.slots, w.slots);
    AccountUpdateKeepsCount(accounts, operator, account);
  }

  lemma SameOperatorsDistinct(a: seq<OperatorSnapshot>, b: seq<OperatorSnapshot>)
    requires SlotsWellFormed(a) && OperatorsDistinct(a) && |a| == |b|
    requires forall i :: 0 <= i < |a| ==>
               b[i].operator == a[i].operator && b[i].ncnOperatorIndex == a[i].ncnOperatorIndex
    ensures SlotsWellFormed(b) && OperatorsDistinct(b)
  {}

  lemma ReplacedSlotOk(suite: Suite, v: SnapshotView, w: SnapshotView, accounts: map<Pubkey, OperatorAccount>,
                       operator: Pubkey, account: OperatorAccount, at: Option<nat>, i: nat)
    requires OperatorsDistinct(v.slots) && operator in accounts && i < |v.slots|
    requires SlotOk(suite, v.slots[i], v, accounts)
    requires suite.decompressG1(account.g1Pubkey).Some?
    requires at == FindOperator(v.slots, operator, 0)
    requires w.slots == KeyReplaced(v.slots, at, account.g1Pubkey)
    requires w.lastSnapshotSlot == v.lastSnapshotSlot && w.minimumStake == v.minimumStake
    ensures SlotOk(suite, w.slots[i], w, accounts[operator := account])
  {
    if at == Some(i) {
      var before, op := v.slots[i], w.slots[i];
      assert op == before.(g1Pubkey := account.g1Pubkey);
      assert StakeOk(op, w.minimumStake);
    } else {
      LiveUnaffected(suite, v, w, accounts, accounts[operator := account], i);
    }
  }

  lemma AccountUpdateKeepsCount(accounts: map<Pubkey, OperatorAccount>, operator: Pubkey, account: OperatorAccount)
    requires operator in accounts
    ensures |accounts[operator := account]| == |accounts|
  {
    assert accounts[operator := account].Keys == accounts.Keys;
  }

  /** Rotation with one registration ever: a live operator leaves no drift, a
      tombstoned one leaves its whole new key as drift. */
  lemma SoleRotation(suite: Suite, st: NcnState, operator: Pubkey, g1Key: Bytes32)
    requires Inv(suite, st) && st.snapshot.Some? && operator in st.accounts
    requires st.snapshot.value.operatorsRegistered == 1
    requires suite.decompressG1(g1Key).Some?
    ensures var v := st.snapshot.value;
            var at := FindOperator(v.slots, operator, 0);
            var w := v.(apk := g1Key, slots := KeyReplaced(v.slots, at, g1Key));
            Drift(suite, w) == if at.Some? then 0 else KeyPoint(suite, g1Key)
  {
    var v := st.snapshot.value;
    var at := FindOperator(v.slots, operator, 0);
    var slots := KeyReplaced(v.slots, at, g1Key);
    forall j | 0 <= j < |slots| && !(at.Some? && j == at.value) ensures !slots[j].IsLive() {
      assert SlotOk(suite, v.slots[j], v, st.accounts);
      if v.slots[j].IsLive() {
        SingletonAccounts(st.accounts, operator, v.slots[j].operator);
      }
    }
    if at.Some? {
      SoleOperatorSum(suite, slots, at.value);
      assert LivePoints(suite, slots)[at.value] == KeyPoint(suite, g1Key);
    } else {
      KeySumOfZeros(LivePoints(suite, slots), |slots|);
    }
  }

  lemma KeysUpdatedKeeps(suite: Suite, st: NcnState, operator: Pubkey, g1Key: Bytes32, g2Key: Bytes64, signature: RawG1)
    requires suite.Lawful() && Sound(st) && Inv(suite, st)
    requires KeysUpdated(suite, st, operator, g1Key, g2Key, signature).Ok?
    ensures var after := KeysUpdated(suite, st, operator, g1Key, g2Key, signature).value;
            && st.snapshot.Some? && after.snapshot.Some?
            && Inv(suite, after)
            && after.snapshot.value.operatorsRegistered == st.snapshot.value.operatorsRegistered
            && (if st.snapshot.value.operatorsRegistered != 1 then
                  Drift(suite, after.snapshot.value) == Drift(suite, st.snapshot.value)
                else if FindOperator(st.snapshot.value.slots, operator, 0).Some? then
                  Drift(suite, after.snapshot.value) == 0
                else
                  Drift(suite, after.snapshot.value) != 0)
  {
    var after := KeysUpdated(suite, st, operator, g1Key, g2Key, signature).value;
    var v, w := st.snapshot.value, after.snapshot.value;
    RotatedKeyIsNonzero(suite, operator, g1Key, g2Key, signature);
    var at := FindOperator(v.slots, operator, 0);
    if v.operatorsRegistered == 1 {
      SoleRotation(suite, st, operator, g1Key);
      assert w == v.(apk := g1Key, slots := KeyReplaced(v.slots, at, g1Key), generation := w.generation);
    } else if at.Some? {
      RotationInAggregate(suite, v, at.value, g1Key, st.accounts);
    }
    ReplacedKeysOk(suite, v, w, st.accounts, st.clock, operator, after.accounts[operator]);
  }

  /** Subtracting the old key and adding the new one follows the plain sum. */
  lemma RotationInAggregate(suite: Suite, v: SnapshotView, i: nat, g1Key: Bytes32, accounts: map<Pubkey, OperatorAccount>)
    requires suite.Lawful() && i < |v.slots| && v.slots[i].IsLive()
    requires suite.decompressG1(v.apk).Some? && suite.decompressG1(g1Key).Some?
    requires suite.decompressG1(v.slots[i].g1Pubkey).Some?
    ensures ApkMinus(suite, v.apk, v.slots[i].g1Pubkey).Ok?
    ensures var without := ApkMinus(suite, v.apk, v.slots[i].g1Pubkey).value;
            && ApkPlus(suite, without, g1Key).Ok?
            && suite.decompressG1(ApkPlus(suite, without, g1Key).value).Some?
            && Drift(suite, v.(apk := ApkPlus(suite, without, g1Key).value,
                               slots := KeyReplaced(v.slots, Some(i), g1Key))) == Drift(suite, v)
  {
    var key := v.slots[i].g1Pubkey;
    ApkArithmetic(suite, v.apk, key);
    var without := ApkMinus(suite, v.apk, key).value;
    ApkArithmetic(suite, without, g1Key);
    LiveKeySumUpdate(suite, v.slots, i, v.slots[i].(g1Pubkey := g1Key));
    var p, s := KeyPoint(suite, v.apk), LiveKeySum(suite, v.slots);
    var old_, new_ := KeyPoint(suite, key), KeyPoint(suite, g1Key);
    DriftShift(p, s, old_);
    DriftShift(Sub(p, old_), Sub(s, old_), new_);
  }

  // ----- delegation cranks -----

  /** Weighting keeps a u64 delegation in u64 range and in order, so it never
      overflows; the only failures left are a missing vault or mint and a
      cool-down larger than the delegation. */
  lemma WeightedInRange(reg: Registry, vault: Pubkey, isActive: bool, totalSecurity: U64, coolingDown: U64)
    requires RegistryOk(reg)
    ensures var r := WeightedDelegation(reg, vault, isActive, totalSecurity, coolingDown);
            && (r.Ok? ==> r.value.1 <= r.value.0 <= totalSecurity)
            && (r.Ok? ==> VaultSlot(reg, vault).Ok?)
            && (r.Ok? && !Weighable(reg, VaultSlot(reg, vault).value) ==> r.value == (0, 0))
            && (r.Err? ==> r.error in {VaultNotInRegistry, MintEntryNotFound, ArithmeticUnderflow})
            && (r == Err(ArithmeticUnderflow) ==> isActive && coolingDown > totalSecurity)
  {
    var weightBps := VaultWeightBps(reg, vault);
    if weightBps.Ok? {
      WeightNeedsWeighable(reg, vault);
      var raw: Result<(U128, U128), NcnError> :=
        if isActive then CalculateStakeWeights(totalSecurity, coolingDown) else Ok((0, 0));
      if raw.Ok? {
        var now: int, next: int, bps: int := raw.value.0, raw.value.1, weightBps.value;
        WeightBounds(now, bps, now * bps);
        WeightBounds(next, bps, next * bps);
        WeightMonotone(next, now, bps);
      }
    }
  }

  lemma WeightBounds(raw: int, bps: int, product: int)
    requires 0 <= raw <= U64_MAX && 0 <= bps <= FULL_WEIGHT_BPS && product == raw * bps
    ensures 0 <= product <= U128_MAX
    ensures product / FULL_WEIGHT_BPS <= raw
    ensures bps == 0 ==> product / FULL_WEIGHT_BPS == 0
  {
    ProductInRange(raw, bps);
  }

  lemma ProductInRange(raw: int, bps: int)
    requires 0 <= raw && 0 <= bps <= FULL_WEIGHT_BPS
    ensures 0 <= raw * bps <= raw * FULL_WEIGHT_BPS
  {}

  lemma WeightMonotone(a: int, b: int, bps: int)
    requires 0 <= a <= b && 0 <= bps
    ensures (a * bps) / FULL_WEIGHT_BPS <= (b * bps) / FULL_WEIGHT_BPS
  {
    assert b * bps - a * bps == (b - a) * bps >= 0;
  }

  lemma TotalsInRange(cs: seq<VaultContribution>)
    requires |cs| == MAX_VAULTS
    requires forall i :: 0 <= i < |cs| ==> cs[i].nextEpochStakeWeight <= cs[i].stakeWeight <= U64_MAX
    ensures TotalWeight(cs, NextEpoch) <= TotalWeight(cs, ThisEpoch) <= MAX_VAULTS * U64_MAX
    ensures Totals(cs).Ok?
  {
    var now, next := ContributionWeights(cs, ThisEpoch), ContributionWeights(cs, NextEpoch);
    NatSumBound(now, MAX_VAULTS, U64_MAX);
    NatSumMonotone(next, now, MAX_VAULTS);
  }

  /** A delegation snapshot of a live operator never fails, and keeps the
      recorded stake consistent. */
  lemma DelegationKeepsStakeOk(op: OperatorSnapshot, clock: U64, slot: U64, stake: U128, next: U128, minimumStake: U128)
    requires StakeOk(op, minimumStake) && op.isActive && slot < MAX_VAULTS
    requires next <= stake <= U64_MAX
    ensures var r := DelegationSnapshotted(op, clock, slot, stake, next, minimumStake);
            && r.Ok?
            && StakeOk(r.value, minimumStake)
            && r.value.lastSnapshotSlot == clock
            && r.value == op.(vaultContributions := r.value.vaultContributions,
                              stakeWeight := r.value.stakeWeight,
                              nextEpochStakeWeight := r.value.nextEpochStakeWeight,
                              hasMinimumStake := r.value.hasMinimumStake,
                              hasMinimumStakeNextEpoch := r.value.hasMinimumStakeNextEpoch,
                              lastSnapshotSlot := clock)
  {
    UpsertRefinesMap(op.vaultContributions, slot, stake, next);
    var p := UpsertPosition(op.vaultContributions, slot).value;
    TotalsInRange(op.vaultContributions[p := VaultContribution(slot, stake, next)]);
  }

  lemma CrankedKeeps(suite: Suite, st: NcnState, operator: Pubkey, vault: Pubkey, isActive: bool,
                     totalSecurity: U64, coolingDown: U64)
    requires Sound(st) && Inv(suite, st)
    requires Cranked(st, operator, vault, isActive, totalSecurity, coolingDown).Ok?
    ensures var after := Cranked(st, operator, vault, isActive, totalSecurity, coolingDown).value;
            && st.snapshot.Some? && after.snapshot.Some?
            && Inv(suite, after)
            && Drift(suite, after.snapshot.value) == Drift(suite, st.snapshot.value)
            && after.snapshot.value.operatorsRegistered == st.snapshot.value.operatorsRegistered
  {
    var after := Cranked(st, operator, vault, isActive, totalSecurity, coolingDown).value;
    var v, w := st.snapshot.value, after.snapshot.value;
    var i := FindOperator(v.slots, operator, 0).value;
    assert SlotOk(suite, v.slots[i], v, st.accounts);
    WeightedInRange(st.registry, vault, isActive, totalSecurity, coolingDown);
    var weighted := WeightedDelegation(st.registry, vault, isActive, totalSecurity, coolingDown).value;
    DelegationKeepsStakeOk(v.slots[i], st.clock, VaultSlot(st.registry, vault).value,
                           weighted.0, weighted.1, v.minimumStake);
    forall j | 0 <= j < |w.slots| ensures SlotOk(suite, w.slots[j], w, after.accounts) {
      if j != i {
        LiveUnaffected(suite, v, w, st.accounts, after.accounts, j);
      }
    }
    SameOperatorsDistinct(v.slots, w.slots);
    assert LivePoints(suite, w.slots) == LivePoints(suite, v.slots);
  }

  /** A crank of a live operator fails only for want of a vault or a mint, or on
      a cool-down larger than the delegation: never for lack of space and never
      on overflow. */
  lemma CrankErrors(suite: Suite, st: NcnState, operator: Pubkey, vault: Pubkey, isActive: bool,
                    totalSecurity: U64, coolingDown: U64)
    requires Sound(st) && Inv(suite, st)
    ensures var r := Cranked(st, operator, vault, isActive, totalSecurity, coolingDown);
            r.Err? ==>
              && r.error in {SnapshotNotInitialized, OperatorIsNotInSnapshot, VaultNotInRegistry,
                             MintEntryNotFound, ArithmeticUnderflow}
              && (r.error == ArithmeticUnderflow ==> isActive && coolingDown > totalSecurity)
  {
    if st.snapshot.Some? {
      var v := st.snapshot.value;
      var at := FindOperator(v.slots, operator, 0);
      WeightedInRange(st.registry, vault, isActive, totalSecurity, coolingDown);
      var weighted := WeightedDelegation(st.registry, vault, isActive, totalSecurity, coolingDown);
      if at.Some? && weighted.Ok? {
        assert SlotOk(suite, v.slots[at.value], v, st.accounts);
        DelegationKeepsStakeOk(v.slots[at.value], st.clock, VaultSlot(st.registry, vault).value,
                               weighted.value.0, weighted.value.1, v.minimumStake);
      }
    }
  }

  // ----- every step, every run -----

  lemma ReallocKeeps(suite: Suite, st: NcnState, minimumStake: U128)
    requires suite.Lawful() && Sound(st) && Inv(suite, st)
    ensures Inv(suite, Realloc(st, minimumStake))
    ensures st.snapshot.Some? ==> Realloc(st, minimumStake).snapshot == st.snapshot
    ensures st.snapshot.None? && Realloc(st, minimumStake).snapshot.Some? ==>
              Realloc(st, minimumStake).snapshot == Some(Initialized(minimumStake))
              && Drift(suite, Initialized(minimumStake)) == 0
  {
    InitializedOk(suite, minimumStake, st.clock);
  }

  /** Steps that leave the operator set alone. */
  lemma QuietStepKeeps(suite: Suite, st: NcnState, ins: Instruction)
    requires suite.Lawful() && Sound(st) && Inv(suite, st) && Execute(suite, st, ins).Ok?
    requires !ins.RegisterOperator? && !ins.UpdateOperatorKeys? && !ins.RemoveOperator?
    ensures Inv(suite, Step(suite, st, ins))
    ensures st.snapshot.Some? ==>
              var after := Step(suite, st, ins);
              && after.snapshot.Some?
              && after.snapshot.value.operatorsRegistered == st.snapshot.value.operatorsRegistered
              && Drift(suite, after.snapshot.value) == Drift(suite, st.snapshot.value)
    ensures st.snapshot.None? && Step(suite, st, ins).snapshot.Some? ==>
              Drift(suite, Step(suite, st, ins).snapshot.value) == 0
  {
    match ins
    case Tick(_) =>
    case ReallocSnapshot(minimumStake) => ReallocKeeps(suite, st, minimumStake);
    case RegisterStMint(mint, weightBps) => MintRegistrationKeeps(st.registry, mint, weightBps);
    case RegisterVault(vault, mint, vaultIndex) =>
      VaultRegistrationKeeps(st.registry, vault, mint, vaultIndex, st.clock);
    case SnapshotDelegation(operator, vault, isActive, totalSecurity, coolingDown) =>
      CrankedKeeps(suite, st, operator, vault, isActive, totalSecurity, coolingDown);
  }

  /** One step keeps the invariant; what it does to the drift. */
  lemma StepKeeps(suite: Suite, st: NcnState, ins: Instruction)
    requires suite.Lawful() && Sound(st) && Inv(suite, st)
    ensures Inv(suite, Step(suite, st, ins))
    ensures st.snapshot.Some? ==>
              var after := Step(suite, st, ins);
              && after.snapshot.Some?
              && after.snapshot.value.operatorsRegistered >= st.snapshot.value.operatorsRegistered
              && (ins.RegisterOperator? || after.snapshot.value.operatorsRegistered == st.snapshot.value.operatorsRegistered)
    ensures st.snapshot.Some? ==>
              var v, w := st.snapshot.value, Step(suite, st, ins).snapshot.value;
              if RotatesTombstone(suite, st, ins) then Drift(suite, w) != 0
              else Drift(suite, w) == Drift(suite, v)
                   || (v.operatorsRegistered == 1 && Drift(suite, w) == 0 && ins.UpdateOperatorKeys?
                       && FindOperator(v.slots, ins.operator, 0).Some?)
    ensures st.snapshot.None? && Step(suite, st, ins).snapshot.Some? ==>
              Drift(suite, Step(suite, st, ins).snapshot.value) == 0
  {
    if Execute(suite, st, ins).Ok? {
      match ins
      case RegisterOperator(operator, index, g1Key, g2Key, signature, connectionActive) =>
        RegisteredKeeps(suite, st, operator, index, g1Key, g2Key, signature, connectionActive);
      case UpdateOperatorKeys(operator, g1Key, g2Key, signature) =>
        KeysUpdatedKeeps(suite, st, operator, g1Key, g2Key, signature);
      case RemoveOperator(operator) => RemovedKeeps(suite, st, operator);
      case _ => QuietStepKeeps(suite, st, ins);
    }
  }
}
