/**
 Operators that hold the secrets of their keys are let in, and the one way the
 cached aggregate goes wrong is open to them.
 */
module HonestOperators {
  import opened Prelude
  import opened NcnErrors
  import opened ScalarField
  import opened Bls
  import opened Operator
  import opened SnapshotAccount
  import opened NcnProgram
  import opened NcnInvariants
  import opened NcnRuns
  import opened NcnOutcomes

  /** The instruction an operator sends to register the key of its secret. */
  function RegisterWith(suite: Suite, operator: Pubkey, index: U64, secret: Scalar): Instruction {
    var g1Key := suite.compressG1(secret);
    var signature := Sign(suite, secret, suite.popDigest(operator, g1Key));
    RegisterOperator(operator, index, g1Key, suite.compressG2(Subgroup(secret)),
                     if signature.Some? then OnCurve(signature.value) else OffCurve, true)
  }

  function RotateTo(suite: Suite, operator: Pubkey, secret: Scalar): Instruction {
    var g1Key := suite.compressG1(secret);
    var signature := Sign(suite, secret, suite.popDigest(operator, g1Key));
    UpdateOperatorKeys(operator, g1Key, suite.compressG2(Subgroup(secret)),
                       if signature.Some? then OnCurve(signature.value) else OffCurve)
  }

  predicate Hashable(suite: Suite, operator: Pubkey, secret: Scalar) {
    suite.hashToCurve(suite.popDigest(operator, suite.compressG1(secret))).Some?
  }

  /** A proof of possession by the key's own secret always passes. */
  lemma HonestRegistrationPasses(suite: Suite, operator: Pubkey, index: U64, secret: Scalar)
    requires suite.Lawful() && Hashable(suite, operator, secret)
    ensures var ins := RegisterWith(suite, operator, index, secret);
            CheckRegistrationKeys(suite, operator, ins.g1Key, ins.g2Key, ins.signature).Ok?
  {
    var g1Key := suite.compressG1(secret);
    var h := suite.hashToCurve(suite.popDigest(operator, g1Key)).value;
    CombinedComplete(h, secret, suite.popGamma(OnCurve(Mul(h, secret)), secret, Subgroup(secret), h));
  }

  /** The key checks of a rotation to one's own secret pass iff the new key is
      not the identity. */
  lemma HonestRotationPasses(suite: Suite, operator: Pubkey, secret: Scalar)
    requires suite.Lawful() && Hashable(suite, operator, secret)
    ensures var ins := RotateTo(suite, operator, secret);
            CheckRotationKeys(suite, operator, ins.g1Key, ins.g2Key, ins.signature).Ok? <==> secret != 0
  {
    var ins := RotateTo(suite, operator, secret);
    RotationChecksMeaning(suite, secret, Subgroup(secret), ins.signature, suite.popDigest(operator, ins.g1Key));
  }

  /** The rotation itself succeeds iff, besides, the operator has an account,
      fewer than 256 operators have ever registered and the generation is not at
      its maximum. */
  lemma HonestRotationSucceedsIff(suite: Suite, st: NcnState, operator: Pubkey, secret: Scalar)
    requires suite.Lawful() && Sound(st) && Inv(suite, st) && Hashable(suite, operator, secret)
    ensures Execute(suite, st, RotateTo(suite, operator, secret)).Ok? <==>
            && secret != 0 && operator in st.accounts && st.snapshot.Some?
            && st.snapshot.value.operatorsRegistered < MAX_OPERATORS && st.snapshot.value.generation < U64_MAX
  {
    HonestRotationPasses(suite, operator, secret);
    RotationSucceedsIff(suite, st, RotateTo(suite, operator, secret));
  }

  lemma EmptySetHasNoOperators(suite: Suite, st: NcnState)
    requires Inv(suite, st) && st.snapshot.Some? && st.snapshot.value.operatorsRegistered == 0
    ensures st.accounts == map[] && NoneLive(st.snapshot.value.slots)
  {
    var v := st.snapshot.value;
    forall i | 0 <= i < |v.slots| ensures !v.slots[i].IsLive() {
      assert SlotOk(suite, v.slots[i], v, st.accounts);
    }
  }

  /** Registering, as the first operator. */
  lemma FirstRegistration(suite: Suite, st: NcnState, operator: Pubkey, index: U64, secret: Scalar)
    requires suite.Lawful() && Sound(st) && Inv(suite, st) && st.snapshot.Some?
    requires st.snapshot.value.operatorsRegistered == 0 && st.snapshot.value.generation < U64_MAX
    requires index < MAX_OPERATORS && Hashable(suite, operator, secret)
    ensures var ins := RegisterWith(suite, operator, index, secret);
            && Execute(suite, st, ins).Ok?
            && var after := Step(suite, st, ins);
            && after.snapshot.Some? && operator in after.accounts
            && after.snapshot.value.operatorsRegistered == 1
            && after.snapshot.value.generation == st.snapshot.value.generation + 1
            && after.snapshot.value.slots
               == st.snapshot.value.slots[index := NewOperator(operator, true, index, ins.g1Key)]
  {
    EmptySetHasNoOperators(suite, st);
    HonestRegistrationPasses(suite, operator, index, secret);
    ApkArithmetic(suite, st.snapshot.value.apk, suite.compressG1(secret));
  }

  /** Removing the only operator. */
  lemma SoleRemoval(suite: Suite, st: NcnState, operator: Pubkey, index: U64)
    requires suite.Lawful() && Sound(st) && Inv(suite, st) && st.snapshot.Some?
    requires st.snapshot.value.operatorsRegistered == 1 && st.snapshot.value.generation < U64_MAX
    requires index < MAX_OPERATORS && st.snapshot.value.slots[index].IsLive()
    requires st.snapshot.value.slots[index].operator == operator
    requires forall i :: 0 <= i < MAX_OPERATORS && i != index ==> !st.snapshot.value.slots[i].IsLive()
    ensures Execute(suite, st, RemoveOperator(operator)).Ok?
    ensures var after := Step(suite, st, RemoveOperator(operator));
            && after.snapshot.Some? && after.accounts == st.accounts
            && after.snapshot.value.operatorsRegistered == 1
            && after.snapshot.value.generation == st.snapshot.value.generation + 1
            && NoneLive(after.snapshot.value.slots)
  {
    var v := st.snapshot.value;
    assert SlotOk(suite, v.slots[index], v, st.accounts);
    assert FindOperator(v.slots, operator, 0) == Some(index);
    ApkArithmetic(suite, v.apk, v.slots[index].g1Pubkey);
  }

  /** Rotating it afterwards still succeeds. */
  lemma TombstoneRotation(suite: Suite, st: NcnState, operator: Pubkey, secret: Scalar)
    requires suite.Lawful() && Sound(st) && st.snapshot.Some? && operator in st.accounts
    requires st.snapshot.value.operatorsRegistered == 1 && st.snapshot.value.generation < U64_MAX
    requires NoneLive(st.snapshot.value.slots)
    requires Hashable(suite, operator, secret) && secret != 0
    ensures RotatesTombstone(suite, st, RotateTo(suite, operator, secret))
  {
    HonestRotationPasses(suite, operator, secret);
  }

  lemma RunAppend(suite: Suite, program: seq<Instruction>, ins: Instruction)
    ensures Run(suite, program + [ins]) == Step(suite, Run(suite, program), ins)
    ensures EverRotatedTombstone(suite, program + [ins]) <==>
            EverRotatedTombstone(suite, program) || RotatesTombstone(suite, Run(suite, program), ins)
  {
    assert (program + [ins])[..|program|] == program;
  }

  /** The agreement does fail: in any run that has not registered an operator
      yet, register, remove and rotate one operator with its own secrets, and
      the cached aggregate differs from the plain sum of the live keys. */
  lemma AgreementFails(suite: Suite, program: seq<Instruction>, operator: Pubkey, index: U64, first: Scalar, second: Scalar)
    requires suite.Lawful() && Run(suite, program).snapshot.Some?
    requires Run(suite, program).snapshot.value.operatorsRegistered == 0
    requires Run(suite, program).snapshot.value.generation < U64_MAX - 2
    requires index < MAX_OPERATORS && second != 0
    requires Hashable(suite, operator, first) && Hashable(suite, operator, second)
    ensures var longer := program + [RegisterWith(suite, operator, index, first)]
                          + [RemoveOperator(operator)] + [RotateTo(suite, operator, second)];
            && Run(suite, longer).snapshot.Some?
            && !ApkAgrees(suite, Run(suite, longer).snapshot.value)
  {
    var one := program + [RegisterWith(suite, operator, index, first)];
    var two := one + [RemoveOperator(operator)];
    var three := two + [RotateTo(suite, operator, second)];
    RunInvariant(suite, program);
    RunInvariant(suite, one);
    RunAppend(suite, program, RegisterWith(suite, operator, index, first));
    RunAppend(suite, one, RemoveOperator(operator));
    RunAppend(suite, two, RotateTo(suite, operator, second));
    FailingSteps(suite, Run(suite, program), Run(suite, one), Run(suite, two), operator, index, first, second);
    StepGeneration(suite, Run(suite, two), RotateTo(suite, operator, second));
    ApkAgreement(suite, three);
  }

  lemma FailingSteps(suite: Suite, st: NcnState, one: NcnState, two: NcnState, operator: Pubkey, index: U64,
                     first: Scalar, second: Scalar)
    requires suite.Lawful() && Sound(st) && Inv(suite, st) && st.snapshot.Some?
    requires st.snapshot.value.operatorsRegistered == 0 && st.snapshot.value.generation < U64_MAX - 2
    requires index < MAX_OPERATORS && second != 0
    requires Hashable(suite, operator, first) && Hashable(suite, operator, second)
    requires Sound(one) && Inv(suite, one) && Sound(two)
    requires one == Step(suite, st, RegisterWith(suite, operator, index, first))
    requires two == Step(suite, one, RemoveOperator(operator))
    ensures two.snapshot.Some? && RotatesTombstone(suite, two, RotateTo(suite, operator, second))
  {
    EmptySetHasNoOperators(suite, st);
    FirstRegistration(suite, st, operator, index, first);
    SoleRemoval(suite, one, operator, index);
    TombstoneRotation(suite, two, operator, second);
  }

  // ----- slots that are used again -----

  /** Registering in any empty slot. */
  lemma Joins(suite: Suite, st: NcnState, operator: Pubkey, index: U64, secret: Scalar)
    requires suite.Lawful() && Sound(st) && Inv(suite, st) && SlotEmpty(st, index)
    requires operator !in st.accounts && Hashable(suite, operator, secret)
    requires st.snapshot.value.operatorsRegistered < U64_MAX && st.snapshot.value.generation < U64_MAX
    ensures var ins := RegisterWith(suite, operator, index, secret);
            var v, after := st.snapshot.value, Step(suite, st, ins);
            && after.clock == st.clock && after.snapshot.Some?
            && after.accounts.Keys == st.accounts.Keys + {operator}
            && after.snapshot.value.slots == v.slots[index := NewOperator(operator, true, index, ins.g1Key)]
            && after.snapshot.value.operatorsRegistered == v.operatorsRegistered + 1
            && after.snapshot.value.generation == v.generation + 1
  {
    HonestRegistrationPasses(suite, operator, index, secret);
    RegistrationSucceedsIff(suite, st, RegisterWith(suite, operator, index, secret));
  }

  /** Leaving the slot one sits in. */
  lemma Leaves(suite: Suite, st: NcnState, operator: Pubkey, index: U64)
    requires suite.Lawful() && Sound(st) && Inv(suite, st) && st.snapshot.Some? && index < MAX_OPERATORS
    requires st.snapshot.value.slots[index].IsLive() && st.snapshot.value.slots[index].operator == operator
    requires st.snapshot.value.generation < U64_MAX
    ensures var v, after := st.snapshot.value, Step(suite, st, RemoveOperator(operator));
            && after.clock == st.clock && after.snapshot.Some? && after.accounts == st.accounts
            && after.snapshot.value.slots == v.slots[index := EmptyOperator()]
            && after.snapshot.value.operatorsRegistered == v.operatorsRegistered
            && after.snapshot.value.generation == v.generation + 1
  {
    RemovalSucceedsIff(suite, st, RemoveOperator(operator));
    var i := FindOperator(st.snapshot.value.slots, operator, 0).value;
    assert i == index;
  }

  lemma ReuseSteps(suite: Suite, st: NcnState, one: NcnState, two: NcnState, first: Pubkey, second: Pubkey, index: U64,
                   firstSecret: Scalar, secondSecret: Scalar)
    requires suite.Lawful() && Sound(st) && Inv(suite, st) && SlotEmpty(st, index)
    requires st.snapshot.value.operatorsRegistered < U64_MAX - 1 && st.snapshot.value.generation < U64_MAX - 2
    requires first != second && first !in st.accounts && second !in st.accounts
    requires Hashable(suite, first, firstSecret) && Hashable(suite, second, secondSecret)
    requires Sound(one) && Inv(suite, one) && Sound(two) && Inv(suite, two)
    requires one == Step(suite, st, RegisterWith(suite, first, index, firstSecret))
    requires two == Step(suite, one, RemoveOperator(first))
    ensures SlotEmpty(two, index)
    ensures var three := Step(suite, two, RegisterWith(suite, second, index, secondSecret));
            && three.clock == two.clock && three.snapshot.Some?
            && three.snapshot.value.slots[index].IsLive() && three.snapshot.value.slots[index].operator == second
  {
    Joins(suite, st, first, index, firstSecret);
    Leaves(suite, one, first, index);
    Joins(suite, two, second, index, secondSecret);
  }

  /** A removed operator's index is used again at once: in any run with an empty
      slot, one operator registers there, is removed, and another registers
      there, all in one slot of the clock. */
  lemma SlotReused(suite: Suite, program: seq<Instruction>, first: Pubkey, second: Pubkey, index: U64,
                   firstSecret: Scalar, secondSecret: Scalar)
    requires suite.Lawful() && SlotEmpty(Run(suite, program), index)
    requires Run(suite, program).snapshot.value.operatorsRegistered < U64_MAX - 1
    requires Run(suite, program).snapshot.value.generation < U64_MAX - 2
    requires first != second && first !in Run(suite, program).accounts && second !in Run(suite, program).accounts
    requires Hashable(suite, first, firstSecret) && Hashable(suite, second, secondSecret)
    ensures var removed := program + [RegisterWith(suite, first, index, firstSecret)] + [RemoveOperator(first)];
            var reused := removed + [RegisterWith(suite, second, index, secondSecret)];
            && SlotEmpty(Run(suite, removed), index)
            && Run(suite, reused).clock == Run(suite, removed).clock && Run(suite, reused).snapshot.Some?
            && Run(suite, reused).snapshot.value.slots[index].IsLive()
            && Run(suite, reused).snapshot.value.slots[index].operator == second
  {
    var joined := program + [RegisterWith(suite, first, index, firstSecret)];
    var removed := joined + [RemoveOperator(first)];
    RunInvariant(suite, program);
    RunInvariant(suite, joined);
    RunInvariant(suite, removed);
    RunAppend(suite, program, RegisterWith(suite, first, index, firstSecret));
    RunAppend(suite, joined, RemoveOperator(first));
    RunAppend(suite, removed, RegisterWith(suite, second, index, secondSecret));
    ReuseSteps(suite, Run(suite, program), Run(suite, joined), Run(suite, removed), first, second, index,
               firstSecret, secondSecret);
  }

  // ----- a full operator set -----

  predicate Crowded(suite: Suite, operators: seq<Pubkey>, secrets: seq<Scalar>) {
    && |operators| == |secrets| <= MAX_OPERATORS
    && (forall i, j :: 0 <= i < j < |operators| ==> operators[i] != operators[j])
    && (forall i :: 0 <= i < |operators| ==> Hashable(suite, operators[i], secrets[i]))
  }

  /** Operators register one after the other, in index order. */
  function Crowd(suite: Suite, operators: seq<Pubkey>, secrets: seq<Scalar>): seq<Instruction>
    requires |operators| == |secrets| <= MAX_OPERATORS
  {
    if operators == [] then []
    else
      var n := |operators| - 1;
      Crowd(suite, operators[..n], secrets[..n]) + [RegisterWith(suite, operators[n], n, secrets[n])]
  }

  /** The first |operators| slots hold the operators, the rest are empty. */
  ghost predicate SeatsTaken(slots: seq<OperatorSnapshot>, operators: seq<Pubkey>) {
    && |operators| <= |slots|
    && (forall i :: 0 <= i < |operators| ==> slots[i].IsLive() && slots[i].operator == operators[i])
    && (forall i :: |operators| <= i < |slots| ==> !slots[i].IsLive())
  }

  ghost predicate Seated(st: NcnState, operators: seq<Pubkey>, generation: nat) {
    && st.snapshot.Some?
    && st.snapshot.value.operatorsRegistered == |operators| && st.snapshot.value.generation == generation
    && st.accounts.Keys == (set o | o in operators)
    && SeatsTaken(st.snapshot.value.slots, operators)
  }

  lemma SeatsExtend(slots: seq<OperatorSnapshot>, operators: seq<Pubkey>, op: OperatorSnapshot)
    requires SeatsTaken(slots, operators) && |operators| < |slots| && op.IsLive()
    ensures SeatsTaken(slots[|operators| := op], operators + [op.operator])
    ensures (set o | o in operators + [op.operator]) == (set o | o in operators) + {op.operator}
  {}

  lemma OneMoreSeated(suite: Suite, st: NcnState, operators: seq<Pubkey>, generation: nat, operator: Pubkey, secret: Scalar)
    requires suite.Lawful() && Sound(st) && Inv(suite, st)
    requires Seated(st, operators, generation) && |operators| < MAX_OPERATORS && generation < U64_MAX
    requires operator !in operators && Hashable(suite, operator, secret)
    ensures Seated(Step(suite, st, RegisterWith(suite, operator, |operators|, secret)), operators + [operator], generation + 1)
  {
    Joins(suite, st, operator, |operators|, secret);
    SeatsExtend(st.snapshot.value.slots, operators, NewOperator(operator, true, |operators|, suite.compressG1(secret)));
  }

  lemma OneMoreJoins(suite: Suite, before: seq<Instruction>, operators: seq<Pubkey>, generation: nat, operator: Pubkey,
                     secret: Scalar)
    requires suite.Lawful() && Seated(Run(suite, before), operators, generation)
    requires |operators| < MAX_OPERATORS && generation < U64_MAX
    requires operator !in operators && Hashable(suite, operator, secret)
    ensures Seated(Run(suite, before + [RegisterWith(suite, operator, |operators|, secret)]), operators + [operator], generation + 1)
  {
    RunInvariant(suite, before);
    OneMoreSeated(suite, Run(suite, before), operators, generation, operator, secret);
    RunAppend(suite, before, RegisterWith(suite, operator, |operators|, secret));
  }

  lemma Reassociate<T>(a: seq<T>, b: seq<T>, c: seq<T>)
    ensures a + (b + c) == a + b + c
  {}

  lemma LastSplit<T>(s: seq<T>)
    requires s != []
    ensures s == s[..|s| - 1] + [s[|s| - 1]]
  {}

  lemma CrowdSnoc(suite: Suite, program: seq<Instruction>, operators: seq<Pubkey>, secrets: seq<Scalar>)
    requires 0 < |operators| == |secrets| <= MAX_OPERATORS
    ensures var n := |operators| - 1;
            && program + Crowd(suite, operators, secrets)
               == program + Crowd(suite, operators[..n], secrets[..n]) + [RegisterWith(suite, operators[n], n, secrets[n])]
            && operators == operators[..n] + [operators[n]]
  {
    var n := |operators| - 1;
    Reassociate(program, Crowd(suite, operators[..n], secrets[..n]), [RegisterWith(suite, operators[n], n, secrets[n])]);
    LastSplit(operators);
  }

  lemma CrowdedPrefix(suite: Suite, operators: seq<Pubkey>, secrets: seq<Scalar>)
    requires Crowded(suite, operators, secrets) && operators != []
    ensures var n := |operators| - 1;
            && Crowded(suite, operators[..n], secrets[..n])
            && operators[n] !in operators[..n] && Hashable(suite, operators[n], secrets[n])
  {}

  lemma LastOneJoins(suite: Suite, program: seq<Instruction>, operators: seq<Pubkey>, secrets: seq<Scalar>, generation: nat)
    requires suite.Lawful() && Crowded(suite, operators, secrets) && operators != [] && generation < U64_MAX
    requires var n := |operators| - 1;
             Seated(Run(suite, program + Crowd(suite, operators[..n], secrets[..n])), operators[..n], generation)
    ensures Seated(Run(suite, program + Crowd(suite, operators, secrets)), operators, generation + 1)
  {
    var n := |operators| - 1;
    var before, first := program + Crowd(suite, operators[..n], secrets[..n]), operators[..n];
    CrowdedPrefix(suite, operators, secrets);
    CrowdSnoc(suite, program, operators, secrets);
    OneMoreJoins(suite, before, first, generation, operators[n], secrets[n]);
  }

  lemma {:induction false} CrowdJoins(suite: Suite, program: seq<Instruction>, operators: seq<Pubkey>, secrets: seq<Scalar>,
                                      generation: nat)
    requires suite.Lawful() && Crowded(suite, operators, secrets)
    requires Seated(Run(suite, program), [], generation) && generation + |operators| <= U64_MAX
    ensures Seated(Run(suite, program + Crowd(suite, operators, secrets)), operators, generation + |operators|)
    decreases |operators|
  {
    if operators == [] {
      assert program + Crowd(suite, operators, secrets) == program;
    } else {
      var n := |operators| - 1;
      CrowdedPrefix(suite, operators, secrets);
      CrowdJoins(suite, program, operators[..n], secrets[..n], generation);
      LastOneJoins(suite, program, operators, secrets, generation + n);
    }
  }

  /** So the limit is reached: once 256 operators have registered, each of them,
      live as it is, is refused a rotation to any key of its own. */
  lemma FullCrowdCannotRotate(suite: Suite, program: seq<Instruction>, operators: seq<Pubkey>, secrets: seq<Scalar>,
                              generation: nat, i: nat, secret: Scalar)
    requires suite.Lawful() && Crowded(suite, operators, secrets)
    requires Seated(Run(suite, program), [], generation) && generation + |operators| <= U64_MAX
    requires |operators| == MAX_OPERATORS && i < MAX_OPERATORS && secret != 0 && Hashable(suite, operators[i], secret)
    ensures var st := Run(suite, program + Crowd(suite, operators, secrets));
            && st.snapshot.Some? && st.snapshot.value.slots[i].IsLive() && st.snapshot.value.slots[i].operator == operators[i]
            && Execute(suite, st, RotateTo(suite, operators[i], secret)) == Err(InvalidOperatorCount)
  {
    CrowdJoins(suite, program, operators, secrets, generation);
    HonestRotationPasses(suite, operators[i], secret);
    FullSetRefusesRotation(suite, Run(suite, program + Crowd(suite, operators, secrets)), RotateTo(suite, operators[i], secret));
  }
}
