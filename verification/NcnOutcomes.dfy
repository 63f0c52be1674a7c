/**
 When the operator-set instructions succeed, in terms their callers can test, and
 what follows for removed slots: a tombstone is filled again exactly when a
 registration takes its index.
 */
module NcnOutcomes {
  import opened Prelude
  import opened NcnErrors
  import opened Bls
  import opened SnapshotAccount
  import opened NcnProgram
  import opened NcnInvariants
  import opened NcnRuns

  // ----- success -----

  /** The guards of a registration. */
  predicate MayRegister(suite: Suite, st: NcnState, ins: Instruction)
    requires Sound(st)
  {
    && ins.RegisterOperator? && ins.operator !in st.accounts && ins.connectionActive
    && CheckRegistrationKeys(suite, ins.operator, ins.g1Key, ins.g2Key, ins.signature).Ok?
    && st.snapshot.Some? && ins.index < MAX_OPERATORS && !st.snapshot.value.slots[ins.index].IsLive()
    && st.snapshot.value.operatorsRegistered < U64_MAX && st.snapshot.value.generation < U64_MAX
  }

  /** The guards of a rotation; the count never falls, so after the 256th
      registration no rotation is let through. */
  predicate MayRotate(suite: Suite, st: NcnState, ins: Instruction) {
    && ins.UpdateOperatorKeys? && ins.operator in st.accounts
    && CheckRotationKeys(suite, ins.operator, ins.g1Key, ins.g2Key, ins.signature).Ok?
    && st.snapshot.Some?
    && st.snapshot.value.operatorsRegistered < MAX_OPERATORS && st.snapshot.value.generation < U64_MAX
  }

  /** The guards of a removal. */
  predicate MayRemove(st: NcnState, ins: Instruction) {
    && ins.RemoveOperator? && st.snapshot.Some?
    && FindOperator(st.snapshot.value.slots, ins.operator, 0).Some? && st.snapshot.value.generation < U64_MAX
  }

  lemma RegistrationSucceedsIff(suite: Suite, st: NcnState, ins: Instruction)
    requires suite.Lawful() && Sound(st) && Inv(suite, st) && ins.RegisterOperator?
    ensures Execute(suite, st, ins).Ok? <==> MayRegister(suite, st, ins)
  {
    if st.snapshot.Some? {
      ApkArithmetic(suite, st.snapshot.value.apk, ins.g1Key);
    }
  }

  lemma KeyRotatedIff(suite: Suite, v: SnapshotView, g1Key: Bytes32, operator: Pubkey, accounts: map<Pubkey, OperatorAccount>)
    requires suite.Lawful() && suite.decompressG1(v.apk).Some? && suite.decompressG1(g1Key).Some?
    requires forall i :: 0 <= i < |v.slots| ==> SlotOk(suite, v.slots[i], v, accounts)
    ensures KeyRotated(suite, v, g1Key, operator).Ok? <==>
            0 < v.operatorsRegistered < MAX_OPERATORS && v.generation < U64_MAX
  {
    var at := FindOperator(v.slots, operator, 0);
    if at.Some? {
      assert SlotOk(suite, v.slots[at.value], v, accounts);
      RotationInAggregate(suite, v, at.value, g1Key, accounts);
    }
  }

  lemma RotationSucceedsIff(suite: Suite, st: NcnState, ins: Instruction)
    requires suite.Lawful() && Sound(st) && Inv(suite, st) && ins.UpdateOperatorKeys?
    ensures Execute(suite, st, ins).Ok? <==> MayRotate(suite, st, ins)
  {
    if st.snapshot.Some? && ins.operator in st.accounts
       && CheckRotationKeys(suite, ins.operator, ins.g1Key, ins.g2Key, ins.signature).Ok? {
      KeyRotatedIff(suite, st.snapshot.value, ins.g1Key, ins.operator, st.accounts);
      SomeAccounts(st, ins.operator);
    }
  }

  lemma SomeAccounts(st: NcnState, operator: Pubkey)
    requires operator in st.accounts
    ensures |st.accounts| > 0
  {}

  lemma RemovalSucceedsIff(suite: Suite, st: NcnState, ins: Instruction)
    requires suite.Lawful() && Sound(st) && Inv(suite, st) && ins.RemoveOperator?
    ensures Execute(suite, st, ins).Ok? <==> MayRemove(st, ins)
  {
    if MayRemove(st, ins) {
      var v := st.snapshot.value;
      var i := FindOperator(v.slots, ins.operator, 0).value;
      assert SlotOk(suite, v.slots[i], v, st.accounts);
      ApkArithmetic(suite, v.apk, v.slots[i].g1Pubkey);
    }
  }

  /** From the 256th registration on every valid rotation ends in an error, also
      that of a live operator. */
  lemma FullSetRefusesRotation(suite: Suite, st: NcnState, ins: Instruction)
    requires Sound(st) && st.snapshot.Some? && st.snapshot.value.operatorsRegistered >= MAX_OPERATORS
    requires ins.UpdateOperatorKeys? && ins.operator in st.accounts
    requires CheckRotationKeys(suite, ins.operator, ins.g1Key, ins.g2Key, ins.signature).Ok?
    ensures Execute(suite, st, ins) == Err(InvalidOperatorCount)
  {}

  // ----- empty slots -----

  predicate SlotEmpty(st: NcnState, s: nat)
    requires Sound(st)
  {
    st.snapshot.Some? && s < MAX_OPERATORS && !st.snapshot.value.slots[s].IsLive()
  }

  /** A registration that may go through takes this index. */
  predicate Fills(suite: Suite, st: NcnState, ins: Instruction, s: nat)
    requires Sound(st)
  {
    MayRegister(suite, st, ins) && ins.index == s
  }

  lemma OtherStepsFillNothing(suite: Suite, st: NcnState, ins: Instruction, s: nat)
    requires Sound(st) && SlotEmpty(st, s)
    ensures SlotEmpty(Step(suite, st, ins), s) <==>
            !(ins.RegisterOperator? && ins.index == s && Execute(suite, st, ins).Ok?)
  {}

  /** An empty slot, never used or a tombstone, comes to life exactly in a
      registration that takes its index: nothing remembers a removal. */
  lemma SlotFilledIff(suite: Suite, st: NcnState, ins: Instruction, s: nat)
    requires suite.Lawful() && Sound(st) && Inv(suite, st) && SlotEmpty(st, s)
    ensures SlotEmpty(Step(suite, st, ins), s) <==> !Fills(suite, st, ins, s)
  {
    OtherStepsFillNothing(suite, st, ins, s);
    if ins.RegisterOperator? {
      RegistrationSucceedsIff(suite, st, ins);
    }
  }

  ghost predicate StaysEmpty(suite: Suite, program: seq<Instruction>, i: nat, j: nat, s: nat)
    requires i <= j <= |program|
  {
    forall k :: i <= k <= j ==> SlotEmpty(Run(suite, program[..k]), s)
  }

  ghost predicate NeverFilled(suite: Suite, program: seq<Instruction>, i: nat, j: nat, s: nat)
    requires i <= j <= |program|
  {
    forall k :: i <= k < j ==> !Fills(suite, Run(suite, program[..k]), program[k], s)
  }

  lemma RunFilledIff(suite: Suite, program: seq<Instruction>, j: nat, s: nat)
    requires suite.Lawful() && 0 < j <= |program| && SlotEmpty(Run(suite, program[..j - 1]), s)
    ensures SlotEmpty(Run(suite, program[..j]), s) <==> !Fills(suite, Run(suite, program[..j - 1]), program[j - 1], s)
  {
    RunExtends(suite, program, j);
    RunInvariant(suite, program[..j - 1]);
    SlotFilledIff(suite, Run(suite, program[..j - 1]), program[j - 1], s);
  }

  lemma StaysEmptyExtends(suite: Suite, program: seq<Instruction>, i: nat, j: nat, s: nat)
    requires i < j <= |program|
    ensures StaysEmpty(suite, program, i, j, s) <==>
            StaysEmpty(suite, program, i, j - 1, s) && SlotEmpty(Run(suite, program[..j]), s)
  {}

  lemma NeverFilledExtends(suite: Suite, program: seq<Instruction>, i: nat, j: nat, s: nat)
    requires i < j <= |program|
    ensures NeverFilled(suite, program, i, j, s) <==>
            NeverFilled(suite, program, i, j - 1, s) && !Fills(suite, Run(suite, program[..j - 1]), program[j - 1], s)
  {}

  /** A tombstone stays empty through a stretch of a run iff no registration that
      may go through there takes its index. */
  lemma {:induction false} TombstoneStaysIff(suite: Suite, program: seq<Instruction>, i: nat, j: nat, s: nat)
    requires suite.Lawful() && i <= j <= |program| && SlotEmpty(Run(suite, program[..i]), s)
    ensures StaysEmpty(suite, program, i, j, s) <==> NeverFilled(suite, program, i, j, s)
    decreases j
  {
    if i < j {
      TombstoneStaysIff(suite, program, i, j - 1, s);
      StaysEmptyExtends(suite, program, i, j, s);
      NeverFilledExtends(suite, program, i, j, s);
      if StaysEmpty(suite, program, i, j - 1, s) {
        LastEmpty(suite, program, i, j - 1, s);
        RunFilledIff(suite, program, j, s);
      }
    }
  }

  lemma LastEmpty(suite: Suite, program: seq<Instruction>, i: nat, j: nat, s: nat)
    requires i <= j <= |program| && StaysEmpty(suite, program, i, j, s)
    ensures SlotEmpty(Run(suite, program[..j]), s)
  {}

  // ----- what the generation is for -----

  /** After a successful registration, rotation or removal the generation is
      never again what it was. */
  lemma GenerationMovesOn(suite: Suite, program: seq<Instruction>, i: nat, k: nat, j: nat)
    requires i <= k < j <= |program| && Run(suite, program[..i]).snapshot.Some?
    requires ChangesOperatorSet(program[k]) && Execute(suite, Run(suite, program[..k]), program[k]).Ok?
    ensures Run(suite, program[..j]).snapshot.Some?
    ensures Run(suite, program[..j]).snapshot.value.generation > Run(suite, program[..i]).snapshot.value.generation
  {
    GenerationDeterminesOperatorSet(suite, program, i, k);
    RunExtends(suite, program, k + 1);
    StepGeneration(suite, Run(suite, program[..k]), program[k]);
    GenerationDeterminesOperatorSet(suite, program, k + 1, j);
  }
}
