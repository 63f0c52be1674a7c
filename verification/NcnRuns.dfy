/** Main results about runs of the NCN program, from an empty registry and an
    uninitialized snapshot on. */
module NcnRuns {
  import opened Prelude
  import opened Bls
  import opened Operator
  import opened SnapshotAccount
  import opened NcnProgram
  import opened NcnInvariants

  // ----- generation and operator set -----

  /** What a generation number stands for: who sits where with which key, the
      cached aggregate and the registration count. */
  datatype OperatorSet = OperatorSet(members: seq<Option<(Pubkey, Bytes32)>>, apk: Bytes32, registered: U64)

  function Member(op: OperatorSnapshot): Option<(Pubkey, Bytes32)> {
    if op.IsLive() then Some((op.operator, op.g1Pubkey)) else None
  }

  function OperatorSetOf(v: SnapshotView): OperatorSet {
    OperatorSet(seq(|v.slots|, i requires 0 <= i < |v.slots| => Member(v.slots[i])), v.apk, v.operatorsRegistered)
  }

  predicate ChangesOperatorSet(ins: Instruction) {
    ins.RegisterOperator? || ins.UpdateOperatorKeys? || ins.RemoveOperator?
  }

  /** Each successful change of the operator set takes the next generation;
      everything else, cranks included, keeps both. */
  lemma StepGeneration(suite: Suite, st: NcnState, ins: Instruction)
    requires Sound(st) && st.snapshot.Some?
    ensures Step(suite, st, ins).snapshot.Some?
    ensures var v, w := st.snapshot.value, Step(suite, st, ins).snapshot.value;
            if ChangesOperatorSet(ins) && Execute(suite, st, ins).Ok? then
              w.generation == v.generation + 1
            else
              w.generation == v.generation && OperatorSetOf(w) == OperatorSetOf(v)
  {
    if ins.SnapshotDelegation? && Execute(suite, st, ins).Ok? {
      CrankKeepsMembers(st, ins.operator, ins.vault, ins.isActive, ins.totalSecurity, ins.coolingDown);
    }
  }

  lemma CrankKeepsMembers(st: NcnState, operator: Pubkey, vault: Pubkey, isActive: bool,
                          totalSecurity: U64, coolingDown: U64)
    requires Sound(st)
    requires Cranked(st, operator, vault, isActive, totalSecurity, coolingDown).Ok?
    ensures st.snapshot.Some?
    ensures var w := Cranked(st, operator, vault, isActive, totalSecurity, coolingDown).value.snapshot;
            && w.Some?
            && w.value.generation == st.snapshot.value.generation
            && OperatorSetOf(w.value) == OperatorSetOf(st.snapshot.value)
  {
    var v := st.snapshot.value;
    var w := Cranked(st, operator, vault, isActive, totalSecurity, coolingDown).value.snapshot.value;
    assert OperatorSetOf(w).members == OperatorSetOf(v).members;
  }

  /** In one run, equal generations mean equal operator sets, and the counter
      only ever grows once the snapshot exists. */
  lemma {:induction false} GenerationDeterminesOperatorSet(suite: Suite, program: seq<Instruction>, i: nat, j: nat)
    requires i <= j <= |program|
    requires Run(suite, program[..i]).snapshot.Some?
    ensures Run(suite, program[..j]).snapshot.Some?
    ensures var v, w := Run(suite, program[..i]).snapshot.value, Run(suite, program[..j]).snapshot.value;
            && v.generation <= w.generation
            && (v.generation == w.generation ==> OperatorSetOf(v) == OperatorSetOf(w))
    decreases j
  {
    if i < j {
      GenerationDeterminesOperatorSet(suite, program, i, j - 1);
      RunExtends(suite, program, j);
      StepGeneration(suite, Run(suite, program[..j - 1]), program[j - 1]);
    }
  }

  lemma RunExtends(suite: Suite, program: seq<Instruction>, j: nat)
    requires 0 < j <= |program|
    ensures Run(suite, program[..j]) == Step(suite, Run(suite, program[..j - 1]), program[j - 1])
  {
    assert program[..j][..j - 1] == program[..j - 1];
  }

  /** The snapshot is initialized by the call that completes the growth to its
      full size, and by no other. */
  lemma {:induction false} InitializedOnce(suite: Suite, program: seq<Instruction>)
    ensures var st := Run(suite, program);
            && MAX_REALLOC_BYTES <= st.snapshotSize <= SNAPSHOT_SIZE
            && (st.snapshot.Some? <==> st.snapshotSize == SNAPSHOT_SIZE)
    ensures Run(suite, program).snapshotSize ==
            (var grown := MAX_REALLOC_BYTES * (1 + ReallocCount(program));
             if grown < SNAPSHOT_SIZE then grown else SNAPSHOT_SIZE)
  {
    if program != [] {
      InitializedOnce(suite, program[..|program| - 1]);
      StepSize(suite, Run(suite, program[..|program| - 1]), program[|program| - 1]);
    }
  }

  function ReallocCount(program: seq<Instruction>): nat {
    if program == [] then 0
    else ReallocCount(program[..|program| - 1]) + if program[|program| - 1].ReallocSnapshot? then 1 else 0
  }

  lemma StepSize(suite: Suite, st: NcnState, ins: Instruction)
    requires Sound(st) && st.snapshotSize <= SNAPSHOT_SIZE
    requires st.snapshot.Some? <==> st.snapshotSize == SNAPSHOT_SIZE
    ensures var after := Step(suite, st, ins);
            && (after.snapshot.Some? <==> after.snapshotSize == SNAPSHOT_SIZE)
            && after.snapshotSize == (if !ins.ReallocSnapshot? then st.snapshotSize
                                      else if st.snapshotSize + MAX_REALLOC_BYTES < SNAPSHOT_SIZE
                                      then st.snapshotSize + MAX_REALLOC_BYTES else SNAPSHOT_SIZE)
  {}

  // ----- the cached aggregate -----

  /** Did the run ever rotate a removed operator while it was the only
      registration? */
  predicate EverRotatedTombstone(suite: Suite, program: seq<Instruction>) {
    program != [] &&
    var before := program[..|program| - 1];
    EverRotatedTombstone(suite, before) || RotatesTombstone(suite, Run(suite, before), program[|program| - 1])
  }

  ghost predicate NoneLive(slots: seq<OperatorSnapshot>) {
    forall i :: 0 <= i < |slots| ==> !slots[i].IsLive()
  }

  /** Only registration brings a slot to life. */
  lemma NoneLivePersists(suite: Suite, st: NcnState, ins: Instruction)
    requires Sound(st) && st.snapshot.Some? && !ins.RegisterOperator?
    requires NoneLive(st.snapshot.value.slots)
    ensures Step(suite, st, ins).snapshot.Some? && NoneLive(Step(suite, st, ins).snapshot.value.slots)
  {}

  lemma TombstoneMeansNoneLive(suite: Suite, st: NcnState, ins: Instruction)
    requires Sound(st) && Inv(suite, st) && RotatesTombstone(suite, st, ins)
    ensures NoneLive(st.snapshot.value.slots)
  {
    var v := st.snapshot.value;
    forall i | 0 <= i < |v.slots| ensures !v.slots[i].IsLive() {
      assert SlotOk(suite, v.slots[i], v, st.accounts);
      if v.slots[i].IsLive() {
        SingletonAccounts(st.accounts, ins.operator, v.slots[i].operator);
      }
    }
  }

  lemma {:induction false} RunInvariant(suite: Suite, program: seq<Instruction>)
    requires suite.Lawful()
    ensures Inv(suite, Run(suite, program))
    ensures var st := Run(suite, program);
            && (st.snapshot.Some? ==>
                  (Drift(suite, st.snapshot.value) == 0 <==> !EverRotatedTombstone(suite, program)))
            && (EverRotatedTombstone(suite, program) ==>
                  && st.snapshot.Some? && st.snapshot.value.operatorsRegistered >= 1
                  && (st.snapshot.value.operatorsRegistered == 1 ==> NoneLive(st.snapshot.value.slots)))
  {
    if program != [] {
      var before, ins := program[..|program| - 1], program[|program| - 1];
      var st := Run(suite, before);
      RunInvariant(suite, before);
      StepKeeps(suite, st, ins);
      if RotatesTombstone(suite, st, ins) {
        TombstoneMeansNoneLive(suite, st, ins);
        NoneLivePersists(suite, st, ins);
      } else if EverRotatedTombstone(suite, before) && st.snapshot.value.operatorsRegistered == 1
                && !ins.RegisterOperator? {
        NoneLivePersists(suite, st, ins);
      }
    }
  }

  /** After every run the cached aggregate decodes to the plain sum of the live
      operators' keys, unless some step rotated the key of a removed operator
      that was the only registration ever; after such a step it never does. */
  lemma ApkAgreement(suite: Suite, program: seq<Instruction>)
    requires suite.Lawful() && Run(suite, program).snapshot.Some?
    ensures ApkAgrees(suite, Run(suite, program).snapshot.value) <==> !EverRotatedTombstone(suite, program)
  {
    RunInvariant(suite, program);
    DriftMeasuresAgreement(suite, Run(suite, program).snapshot.value);
  }

  // ----- reachable states -----

  ghost predicate Reachable(suite: Suite, st: NcnState) {
    exists program :: Run(suite, program) == st
  }

  lemma ReachableInv(suite: Suite, st: NcnState)
    requires suite.Lawful() && Reachable(suite, st)
    ensures Sound(st) && Inv(suite, st)
  {
    var program :| Run(suite, program) == st;
    RunInvariant(suite, program);
  }
}
