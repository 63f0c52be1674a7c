/**
 Stake as certificates count it. A live operator's stake is what its vaults' latest
 cranks were worth this epoch if it was last cranked in the current epoch, what
 they were worth for the next epoch if it was cranked in the one before, and
 nothing after that.
 */
module StakeDecay {
  import opened Prelude
  import opened Sums
  import opened Bls
  import opened Bitmap
  import opened Operator
  import opened SnapshotAccount
  import opened NcnProgram
  import opened NcnInvariants
  import opened NcnRuns
  import opened StakeLedger
  import opened Certificate

  // ----- when an operator was last cranked -----

  /** Clock slot of each operator's latest crank, zero for none. */
  type Marks = Pubkey -> nat

  function Marked(marks: Marks, operator: Pubkey, clock: nat): Marks {
    (o: Pubkey) => var mark: nat := if o == operator then clock else marks(o); mark
  }

  function MarksStep(suite: Suite, st: NcnState, ins: Instruction, marks: Marks): Marks
    requires Sound(st)
  {
    if Execute(suite, st, ins).Err? then marks
    else if ins.SnapshotDelegation? then Marked(marks, ins.operator, st.clock)
    else if ins.RemoveOperator? then Marked(marks, ins.operator, 0)
    else marks
  }

  /** The slot of the latest successful crank since the operator's registration. */
  function LastCranks(suite: Suite, program: seq<Instruction>): Marks {
    if program == [] then _ => 0
    else
      var before := program[..|program| - 1];
      MarksStep(suite, Run(suite, before), program[|program| - 1], LastCranks(suite, before))
  }

  ghost predicate MarksMatch(slots: seq<OperatorSnapshot>, marks: Marks) {
    && (forall i :: 0 <= i < |slots| && slots[i].IsLive() ==> slots[i].lastSnapshotSlot == marks(slots[i].operator))
    && (forall o: Pubkey :: marks(o) != 0 ==> IsLiveOperator(slots, o))
  }

  ghost predicate MarksOk(st: NcnState, marks: Marks) {
    match st.snapshot
    case None => forall o: Pubkey :: marks(o) == 0
    case Some(v) => MarksMatch(v.slots, marks)
  }

  lemma StillLive(before: seq<OperatorSnapshot>, after: seq<OperatorSnapshot>, at: nat, o: Pubkey)
    requires at < |before| == |after| && after == before[at := after[at]]
    requires IsLiveOperator(before, o) && (before[at].IsLive() ==> after[at].IsLive() && after[at].operator == before[at].operator)
    ensures IsLiveOperator(after, o)
  {
    var i :| 0 <= i < |before| && before[i].IsLive() && before[i].operator == o;
    assert after[i].IsLive() && after[i].operator == o;
  }

  /** A new operator has no mark yet. */
  lemma JoinMarks(before: seq<OperatorSnapshot>, marks: Marks, at: nat, op: OperatorSnapshot)
    requires at < |before| && !before[at].IsLive() && op.IsLive() && op.lastSnapshotSlot == 0
    requires MarksMatch(before, marks) && !IsLiveOperator(before, op.operator)
    ensures MarksMatch(before[at := op], marks)
  {
    forall o: Pubkey | marks(o) != 0 ensures IsLiveOperator(before[at := op], o) {
      StillLive(before, before[at := op], at, o);
    }
  }

  /** A cranked operator's mark is the clock. */
  lemma CrankMarks(before: seq<OperatorSnapshot>, marks: Marks, at: nat, op: OperatorSnapshot)
    requires at < |before| && before[at].IsLive() && op.IsLive() && op.operator == before[at].operator
    requires MarksMatch(before, marks) && OperatorsDistinct(before)
    ensures MarksMatch(before[at := op], Marked(marks, op.operator, op.lastSnapshotSlot))
  {
    var after := before[at := op];
    assert after[at].IsLive() && after[at].operator == op.operator;
    forall o: Pubkey | Marked(marks, op.operator, op.lastSnapshotSlot)(o) != 0 ensures IsLiveOperator(after, o) {
      if o != op.operator {
        StillLive(before, after, at, o);
      }
    }
  }

  /** A removed operator has none any more. */
  lemma LeaveMarks(before: seq<OperatorSnapshot>, marks: Marks, at: nat, op: OperatorSnapshot)
    requires at < |before| && before[at].IsLive() && !op.IsLive()
    requires MarksMatch(before, marks) && OperatorsDistinct(before)
    ensures MarksMatch(before[at := op], Marked(marks, before[at].operator, 0))
  {
    var after := before[at := op];
    forall o: Pubkey | Marked(marks, before[at].operator, 0)(o) != 0 ensures IsLiveOperator(after, o) {
      var i :| 0 <= i < |before| && before[i].IsLive() && before[i].operator == o;
      assert after[i].IsLive() && after[i].operator == o;
    }
  }

  /** A rotation touches no mark. */
  lemma RotationMarks(before: seq<OperatorSnapshot>, after: seq<OperatorSnapshot>, marks: Marks)
    requires |before| == |after| && MarksMatch(before, marks)
    requires forall i :: 0 <= i < |before| ==>
               && (after[i].IsLive() <==> before[i].IsLive()) && after[i].operator == before[i].operator
               && after[i].lastSnapshotSlot == before[i].lastSnapshotSlot
    ensures MarksMatch(after, marks)
  {
    forall o: Pubkey | marks(o) != 0 ensures IsLiveOperator(after, o) {
      var i :| 0 <= i < |before| && before[i].IsLive() && before[i].operator == o;
      assert after[i].IsLive() && after[i].operator == o;
    }
  }

  lemma NewOperatorIsNotLive(suite: Suite, st: NcnState, operator: Pubkey)
    requires Inv(suite, st) && st.snapshot.Some? && operator !in st.accounts
    ensures !IsLiveOperator(st.snapshot.value.slots, operator)
  {
    var v := st.snapshot.value;
    forall i | 0 <= i < |v.slots| && v.slots[i].IsLive() ensures v.slots[i].operator != operator {
      assert SlotOk(suite, v.slots[i], v, st.accounts);
    }
  }

  lemma RegisterMarks(suite: Suite, st: NcnState, marks: Marks, ins: Instruction)
    requires Sound(st) && Inv(suite, st) && MarksOk(st, marks) && ins.RegisterOperator? && Execute(suite, st, ins).Ok?
    ensures MarksOk(Step(suite, st, ins), marks)
  {
    NewOperatorIsNotLive(suite, st, ins.operator);
    JoinMarks(st.snapshot.value.slots, marks, ins.index,
              NewOperator(ins.operator, ins.connectionActive, ins.index, ins.g1Key));
  }

  lemma RemoveMarks(suite: Suite, st: NcnState, marks: Marks, ins: Instruction)
    requires Sound(st) && Inv(suite, st) && MarksOk(st, marks) && ins.RemoveOperator? && Execute(suite, st, ins).Ok?
    ensures MarksOk(Step(suite, st, ins), Marked(marks, ins.operator, 0))
  {
    LeaveMarks(st.snapshot.value.slots, marks, FindOperator(st.snapshot.value.slots, ins.operator, 0).value, EmptyOperator());
  }

  lemma SnapshotMarks(suite: Suite, st: NcnState, marks: Marks, ins: Instruction)
    requires Sound(st) && Inv(suite, st) && MarksOk(st, marks) && ins.SnapshotDelegation? && Execute(suite, st, ins).Ok?
    ensures MarksOk(Step(suite, st, ins), Marked(marks, ins.operator, st.clock))
  {
    var slots := st.snapshot.value.slots;
    var at := FindOperator(slots, ins.operator, 0).value;
    var after := Step(suite, st, ins).snapshot.value.slots;
    assert after == slots[at := after[at]] && after[at].lastSnapshotSlot == st.clock;
    CrankMarks(slots, marks, at, after[at]);
  }

  lemma UpdateMarks(suite: Suite, st: NcnState, marks: Marks, ins: Instruction)
    requires Sound(st) && MarksOk(st, marks) && ins.UpdateOperatorKeys? && Execute(suite, st, ins).Ok?
    ensures MarksOk(Step(suite, st, ins), marks)
  {
    var v := st.snapshot.value;
    KeyRotatedSlots(suite, v, ins.g1Key, ins.operator);
    RotationMarks(v.slots, Step(suite, st, ins).snapshot.value.slots, marks);
  }

  lemma QuietMarks(suite: Suite, st: NcnState, marks: Marks, ins: Instruction)
    requires Sound(st) && MarksOk(st, marks) && Execute(suite, st, ins).Ok?
    requires ins.Tick? || ins.ReallocSnapshot? || ins.RegisterStMint? || ins.RegisterVault?
    ensures MarksOk(Step(suite, st, ins), marks)
  {}

  lemma MarksStepKeeps(suite: Suite, st: NcnState, marks: Marks, ins: Instruction)
    requires Sound(st) && Inv(suite, st) && MarksOk(st, marks)
    ensures MarksOk(Step(suite, st, ins), MarksStep(suite, st, ins, marks))
  {
    if Execute(suite, st, ins).Ok? {
      match ins
      case RegisterOperator(_, _, _, _, _, _) => RegisterMarks(suite, st, marks, ins);
      case UpdateOperatorKeys(_, _, _, _) => UpdateMarks(suite, st, marks, ins);
      case RemoveOperator(_) => RemoveMarks(suite, st, marks, ins);
      case SnapshotDelegation(_, _, _, _, _) => SnapshotMarks(suite, st, marks, ins);
      case _ => QuietMarks(suite, st, marks, ins);
    }
  }

  /** In every run an operator's mark is the slot of its latest crank. */
  lemma {:induction false} MarksAreLastCranks(suite: Suite, program: seq<Instruction>)
    requires suite.Lawful()
    ensures MarksOk(Run(suite, program), LastCranks(suite, program))
  {
    if program != [] {
      var before := program[..|program| - 1];
      MarksAreLastCranks(suite, before);
      RunInvariant(suite, before);
      MarksStepKeeps(suite, Run(suite, before), LastCranks(suite, before), program[|program| - 1]);
    }
  }

  // ----- what counts -----

  /** The worth of the latest cranks, over the registered vaults. */
  function LedgerTotal(suite: Suite, program: seq<Instruction>, operator: Pubkey, view: StakeView): nat {
    NatSum(LatestWeights(Run(suite, program).registry, Latest(suite, program), operator, view), MAX_VAULTS)
  }

  /** An operator's stake at a clock slot, from the run alone. */
  function CountedStake(suite: Suite, program: seq<Instruction>, operator: Pubkey, now: nat, epochLength: nat): nat
    requires epochLength > 0
  {
    var crank := LastCranks(suite, program)(operator);
    if now / epochLength == crank / epochLength then LedgerTotal(suite, program, operator, ThisEpoch)
    else if now / epochLength == crank / epochLength + 1 then LedgerTotal(suite, program, operator, NextEpoch)
    else 0
  }

  /** Slot by slot, for the live operators below the registration count. */
  function CountedStakes(suite: Suite, program: seq<Instruction>, now: nat, epochLength: nat): seq<nat>
    requires epochLength > 0 && Run(suite, program).snapshot.Some?
  {
    var v := Run(suite, program).snapshot.value;
    seq(|v.slots|, i requires 0 <= i < |v.slots| =>
      if i < v.operatorsRegistered && v.slots[i].IsLive()
      then CountedStake(suite, program, v.slots[i].operator, now, epochLength) else 0)
  }

  /** Those of them whose bit is set. */
  function Signed(stakes: seq<nat>, bitmap: seq<bv8>): seq<nat> {
    seq(|stakes|, i requires 0 <= i < |stakes| => if BitAt(bitmap, i) then stakes[i] else 0)
  }

  function Total(stakes: seq<nat>): nat { NatSum(stakes, |stakes|) }

  lemma SlotCounts(suite: Suite, program: seq<Instruction>, now: nat, epochLength: nat, i: nat)
    requires suite.Lawful() && epochLength > 0 && Run(suite, program).snapshot.Some?
    requires i < |Run(suite, program).snapshot.value.slots| && Run(suite, program).snapshot.value.slots[i].IsLive()
    ensures var op := Run(suite, program).snapshot.value.slots[i];
            EffectiveStake(op, now / epochLength, epochLength) == CountedStake(suite, program, op.operator, now, epochLength)
  {
    StakeIsSumOfLatestCranks(suite, program, i);
    MarksAreLastCranks(suite, program);
  }

  /** The walk's two sums, as the run accounts for them. */
  lemma WalkCountsCranks(suite: Suite, program: seq<Instruction>, now: nat, epochLength: nat, bitmap: seq<bv8>)
    requires suite.Lawful() && epochLength > 0 && Run(suite, program).snapshot.Some?
    ensures var v, counted := Run(suite, program).snapshot.value, CountedStakes(suite, program, now, epochLength);
            && TotalStake(v, now / epochLength, epochLength) == Total(counted)
            && SignedStake(v, bitmap, now / epochLength, epochLength) == Total(Signed(counted, bitmap))
  {
    var v, counted := Run(suite, program).snapshot.value, CountedStakes(suite, program, now, epochLength);
    var epoch := now / epochLength;
    forall i: nat | i < Window(v) ensures Stakes(v.slots, epoch, epochLength)[i] == counted[i] {
      if v.slots[i].IsLive() {
        SlotCounts(suite, program, now, epochLength, i);
      }
    }
    WindowSum(Stakes(v.slots, epoch, epochLength), counted, Window(v));
    WindowSum(SignedStakes(v.slots, bitmap, epoch, epochLength), Signed(counted, bitmap), Window(v));
  }

  lemma WindowSum(visited: seq<nat>, counted: seq<nat>, window: nat)
    requires window <= |visited| == |counted|
    requires forall i :: 0 <= i < window ==> visited[i] == counted[i]
    requires forall i :: window <= i < |counted| ==> counted[i] == 0
    ensures NatSum(visited, window) == Total(counted)
  {
    NatSumPrefix(visited, counted, window);
    NatSumZeroTail(counted, window, |counted|);
  }

  /** In every reachable state an accepted certificate is signed by the threshold
      share, in basis points, of what the cranks of the run add up to. */
  lemma AcceptedQuorumOfCranks(suite: Suite, program: seq<Instruction>, config: VerifyConfig, currentSlot: U64, cert: Certificate)
    requires suite.Lawful() && Run(suite, program).snapshot.Some?
    requires VerifyResult(suite, Run(suite, program).snapshot.value, config, currentSlot, cert).Ok?
    ensures config.epochLength > 0
    ensures var counted := CountedStakes(suite, program, currentSlot, config.epochLength);
            && Total(counted) > 0
            && Total(Signed(counted, cert.bitmap)) * 10_000 >= Total(counted) * config.consensusThresholdBps
  {
    VerifyAcceptsIff(suite, Run(suite, program).snapshot.value, config, currentSlot, cert);
    WalkCountsCranks(suite, program, currentSlot, config.epochLength, cert.bitmap);
  }

  // ----- decay -----

  /** Once every visited live operator's latest crank is two or more epochs old,
      no certificate is accepted. */
  lemma DecayedStakeRefused(suite: Suite, program: seq<Instruction>, config: VerifyConfig, currentSlot: U64, cert: Certificate)
    requires suite.Lawful() && Run(suite, program).snapshot.Some? && config.epochLength > 0
    requires var v := Run(suite, program).snapshot.value;
             forall i :: 0 <= i < |v.slots| && i < v.operatorsRegistered && v.slots[i].IsLive() ==>
               LastCranks(suite, program)(v.slots[i].operator) / config.epochLength + 2 <= currentSlot / config.epochLength
    ensures VerifyResult(suite, Run(suite, program).snapshot.value, config, currentSlot, cert).Err?
  {
    var counted := CountedStakes(suite, program, currentSlot, config.epochLength);
    NatSumBound(counted, |counted|, 0);
    if VerifyResult(suite, Run(suite, program).snapshot.value, config, currentSlot, cert).Ok? {
      AcceptedQuorumOfCranks(suite, program, config, currentSlot, cert);
    }
  }
}
