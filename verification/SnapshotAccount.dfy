/**
 The snapshot account (core/src/snapshot.rs, Snapshot): 256 operator slots and
 the running aggregate G1 key. `SnapshotView` is its contents as a value, with
 one function per operation; the class updates the fields in place and is proved
 against those functions.

 A failing operation aborts its transaction, so a failing method says nothing
 about the fields it leaves behind.
 */
module SnapshotAccount {
  import opened Prelude
  import opened NcnErrors
  import opened ScalarField
  import opened Sums
  import opened Bls
  import opened Operator

  const MAX_OPERATORS: nat := 256

  datatype SnapshotView = SnapshotView(
    slots: seq<OperatorSnapshot>,
    operatorsRegistered: U64,
    apk: Bytes32,
    minimumStake: U128,
    lastSnapshotSlot: U64,
    generation: U64)

  /** Each slot is empty or holds the operator with its own index. */
  ghost predicate SlotsWellFormed(slots: seq<OperatorSnapshot>) {
    && |slots| == MAX_OPERATORS
    && forall i :: 0 <= i < |slots| && slots[i].IsLive() ==> slots[i].ncnOperatorIndex == i
  }

  function EmptySlots(): (slots: seq<OperatorSnapshot>)
    ensures SlotsWellFormed(slots) && forall i :: 0 <= i < |slots| ==> slots[i] == EmptyOperator()
  {
    seq(MAX_OPERATORS, _ => EmptyOperator())
  }

  function Initialized(minimumStake: U128): SnapshotView {
    SnapshotView(EmptySlots(), 0, ZERO32, minimumStake, 0, 0)
  }

  // ----- the key aggregate -----

  /** The point a stored key stands for. */
  function KeyPoint(suite: Suite, key: Bytes32): G1 {
    match suite.decompressG1(key)
    case None => 0
    case Some(p) => p
  }

  function LivePoints(suite: Suite, slots: seq<OperatorSnapshot>): seq<G1> {
    seq(|slots|, i requires 0 <= i < |slots| =>
      if slots[i].IsLive() then KeyPoint(suite, slots[i].g1Pubkey) else 0)
  }

  /** The plain group sum of the live operators' keys. */
  function LiveKeySum(suite: Suite, slots: seq<OperatorSnapshot>): G1 {
    KeySum(LivePoints(suite, slots), |slots|)
  }

  function ApkPlus(suite: Suite, apk: Bytes32, key: Bytes32): Result<Bytes32, NcnError> {
    match suite.decompressG1(key)
    case None => Err(InvalidG1Pubkey)
    case Some(k) =>
      if apk == ZERO32 then
        Ok(key)
      else
        match suite.decompressG1(apk)
        case None => Err(G1PointDecompressionError)
        case Some(total) => Ok(suite.compressG1(Add(total, k)))
  }

  function ApkMinus(suite: Suite, apk: Bytes32, key: Bytes32): Result<Bytes32, NcnError> {
    match suite.decompressG1(key)
    case None => Err(InvalidG1Pubkey)
    case Some(k) =>
      match suite.decompressG1(apk)
      case None => Err(G1PointDecompressionError)
      case Some(total) => Ok(suite.compressG1(Sub(total, k)))
  }

  /** The zero-encoding shortcut of the addition is invisible: once the
      aggregate decodes, both operations succeed exactly on decodable keys and
      act on the decoded points. */
  lemma ApkArithmetic(suite: Suite, apk: Bytes32, key: Bytes32)
    requires suite.Lawful() && suite.decompressG1(apk).Some?
    ensures ApkPlus(suite, apk, key).Ok? <==> suite.decompressG1(key).Some?
    ensures ApkMinus(suite, apk, key).Ok? <==> suite.decompressG1(key).Some?
    ensures suite.decompressG1(key).Some? ==>
              && suite.decompressG1(ApkPlus(suite, apk, key).value)
                 == Some(Add(suite.decompressG1(apk).value, suite.decompressG1(key).value))
              && suite.decompressG1(ApkMinus(suite, apk, key).value)
                 == Some(Sub(suite.decompressG1(apk).value, suite.decompressG1(key).value))
  {
    if suite.decompressG1(key).Some? {
      ZeroDecodesToIdentity(suite);
      var k := suite.decompressG1(key).value;
      AddLaws(0, k, 0);
      AddLaws(k, 0, 0);
    }
  }

  lemma ZeroDecodesToIdentity(suite: Suite)
    requires suite.Lawful()
    ensures suite.decompressG1(ZERO32) == Some(0)
  {
    var identity: G1 := 0;
    assert suite.decompressG1(suite.compressG1(identity)) == Some(identity);
  }

  /** Rewriting one slot moves the live key sum by the difference of the two
      points that slot contributes. */
  lemma LiveKeySumUpdate(suite: Suite, slots: seq<OperatorSnapshot>, i: nat, op: OperatorSnapshot)
    requires i < |slots|
    ensures LiveKeySum(suite, slots[i := op]) ==
            Add(Sub(LiveKeySum(suite, slots), LivePoints(suite, slots)[i]),
                if op.IsLive() then KeyPoint(suite, op.g1Pubkey) else 0)
  {
    var x := if op.IsLive() then KeyPoint(suite, op.g1Pubkey) else 0;
    assert LivePoints(suite, slots[i := op]) == LivePoints(suite, slots)[i := x];
    KeySumUpdate(LivePoints(suite, slots), i, x, |slots|);
  }

  /** With one live operator the plain sum is its key. */
  lemma SoleOperatorSum(suite: Suite, slots: seq<OperatorSnapshot>, i: nat)
    requires i < |slots|
    requires forall j :: 0 <= j < |slots| && j != i ==> !slots[j].IsLive()
    ensures LiveKeySum(suite, slots) == LivePoints(suite, slots)[i]
  {
    var points := LivePoints(suite, slots);
    KeySumOfZeros(points[i := 0], |slots|);
    KeySumUpdate(points, i, 0, |slots|);
    var s, p := KeySum(points, |slots|), points[i];
    AddLaws(Sub(s, p), 0, 0);
    SubLaws(s, p);
    AddLaws(0, p, 0);
  }

  // ----- the operations -----

  /** First live slot from `from` on that holds the operator. */
  function FindOperator(slots: seq<OperatorSnapshot>, operator: Pubkey, from: nat): (r: Option<nat>)
    requires from <= |slots|
    ensures r.Some? ==> from <= r.value < |slots| && slots[r.value].IsLive() && slots[r.value].operator == operator
    ensures r.None? ==> forall i :: from <= i < |slots| && slots[i].IsLive() ==> slots[i].operator != operator
    decreases |slots| - from
  {
    if from == |slots| then None
    else if slots[from].operator == operator && slots[from].IsLive() then Some(from)
    else FindOperator(slots, operator, from + 1)
  }

  function GenerationBumped(v: SnapshotView): Result<SnapshotView, NcnError> {
    if v.generation == U64_MAX then Err(ArithmeticOverflow) else Ok(v.(generation := v.generation + 1))
  }

  function OperatorAdded(v: SnapshotView, op: OperatorSnapshot, slot: U64): Result<SnapshotView, NcnError>
    requires |v.slots| == MAX_OPERATORS
  {
    var index := op.ncnOperatorIndex;
    if index >= MAX_OPERATORS then Err(TooManyVaultOperatorDelegations)
    else if v.slots[index].IsLive() then Err(DuplicateVaultOperatorDelegation)
    else if v.operatorsRegistered == U64_MAX then Err(ArithmeticOverflow)
    else GenerationBumped(v.(slots := v.slots[index := op],
                             operatorsRegistered := v.operatorsRegistered + 1,
                             lastSnapshotSlot := slot))
  }

  function KeyRegistered(suite: Suite, v: SnapshotView, key: Bytes32): Result<SnapshotView, NcnError> {
    var apk :- ApkPlus(suite, v.apk, key);
    Ok(v.(apk := apk))
  }

  /** The operator's slot leaves a tombstone behind; the result names it. */
  function OperatorRemoved(suite: Suite, v: SnapshotView, operator: Pubkey): Result<(SnapshotView, nat), NcnError> {
    match FindOperator(v.slots, operator, 0)
    case None => Err(OperatorIsNotInSnapshot)
    case Some(i) =>
      var key := v.slots[i].g1Pubkey;
      var apk :- if key == ZERO32 then Ok(v.apk) else ApkMinus(suite, v.apk, key);
      var bumped :- GenerationBumped(v.(slots := v.slots[i := EmptyOperator()], apk := apk));
      Ok((bumped, i))
  }

  function KeyReplaced(slots: seq<OperatorSnapshot>, at: Option<nat>, key: Bytes32): seq<OperatorSnapshot>
    requires at.Some? ==> at.value < |slots|
  {
    if at.None? then slots else slots[at.value := slots[at.value].(g1Pubkey := key)]
  }

  function KeyRotated(suite: Suite, v: SnapshotView, key: Bytes32, operator: Pubkey): Result<SnapshotView, NcnError> {
    var at := FindOperator(v.slots, operator, 0);
    if v.operatorsRegistered == 0 then
      Err(NoOperatorsRegistered)
    else if v.operatorsRegistered == 1 then
      GenerationBumped(v.(apk := key, slots := KeyReplaced(v.slots, at, key)))
    else if v.operatorsRegistered >= MAX_OPERATORS then
      Err(InvalidOperatorCount)
    else if at.None? then
      GenerationBumped(v)
    else
      var without :- ApkMinus(suite, v.apk, v.slots[at.value].g1Pubkey);
      var apk :- ApkPlus(suite, without, key);
      GenerationBumped(v.(apk := apk, slots := KeyReplaced(v.slots, at, key)))
  }

  /** However the count is handled, a rotation touches one key at most. */
  lemma KeyRotatedSlots(suite: Suite, v: SnapshotView, key: Bytes32, operator: Pubkey)
    requires KeyRotated(suite, v, key, operator).Ok?
    ensures KeyRotated(suite, v, key, operator).value.slots == KeyReplaced(v.slots, FindOperator(v.slots, operator, 0), key)
  {}

  class Snapshot {
    var operatorSnapshots: array<OperatorSnapshot>
    var operatorsRegistered: U64
    var totalAggregatedG1Pubkey: Bytes32
    var minimumStake: U128
    var lastSnapshotSlot: U64
    var generation: U64

    ghost predicate Valid()
      reads this, operatorSnapshots
    {
      SlotsWellFormed(operatorSnapshots[..])
    }

    ghost function View(): SnapshotView
      reads this, operatorSnapshots
    {
      SnapshotView(operatorSnapshots[..], operatorsRegistered, totalAggregatedG1Pubkey,
                   minimumStake, lastSnapshotSlot, generation)
    }

    constructor (minimumStake: U128)
      ensures Valid() && fresh(operatorSnapshots) && View() == Initialized(minimumStake)
    {
      operatorSnapshots := new OperatorSnapshot[MAX_OPERATORS](_ => EmptyOperator());
      operatorsRegistered := 0;
      totalAggregatedG1Pubkey := ZERO32;
      this.minimumStake := minimumStake;
      lastSnapshotSlot := 0;
      generation := 0;
      new;
      assert operatorSnapshots[..] == EmptySlots();
    }

    method FindOperatorSnapshot(operator: Pubkey) returns (r: Option<nat>)
      ensures r == FindOperator(operatorSnapshots[..], operator, 0)
    {
      var i := 0;
      while i < operatorSnapshots.Length
        invariant 0 <= i <= operatorSnapshots.Length
        invariant FindOperator(operatorSnapshots[..], operator, 0) == FindOperator(operatorSnapshots[..], operator, i)
      {
        if operatorSnapshots[i].operator == operator && operatorSnapshots[i].IsLive() {
          return Some(i);
        }
        i := i + 1;
      }
      r := None;
    }

    method BumpGeneration() returns (r: Result<(), NcnError>)
      modifies this`generation
      ensures r.Ok? ==> GenerationBumped(old(View())) == Ok(View())
      ensures r.Err? ==> GenerationBumped(old(View())) == Err(r.error) && View() == old(View())
    {
      if generation == U64_MAX {
        return Err(ArithmeticOverflow);
      }
      generation := generation + 1;
      r := Ok(());
    }

    method SetLastSnapshotSlot(slot: U64)
      modifies this`lastSnapshotSlot
      ensures View() == old(View()).(lastSnapshotSlot := slot)
    {
      lastSnapshotSlot := slot;
    }

    method AddG1PubkeyToTotalAgg(suite: Suite, key: Bytes32) returns (r: Result<(), NcnError>)
      modifies this`totalAggregatedG1Pubkey
      ensures r.Ok? ==> ApkPlus(suite, old(totalAggregatedG1Pubkey), key) == Ok(totalAggregatedG1Pubkey)
      ensures r.Err? ==> ApkPlus(suite, old(totalAggregatedG1Pubkey), key) == Err(r.error)
    {
      var point := suite.decompressG1(key);
      if point.None? {
        return Err(InvalidG1Pubkey);
      }
      if totalAggregatedG1Pubkey == ZERO32 {
        totalAggregatedG1Pubkey := key;
      } else {
        var total := suite.decompressG1(totalAggregatedG1Pubkey);
        if total.None? {
          return Err(G1PointDecompressionError);
        }
        totalAggregatedG1Pubkey := suite.compressG1(Add(total.value, point.value));
      }
      r := Ok(());
    }

    method SubtractG1PubkeyFromTotalAgg(suite: Suite, key: Bytes32) returns (r: Result<(), NcnError>)
      modifies this`totalAggregatedG1Pubkey
      ensures r.Ok? ==> ApkMinus(suite, old(totalAggregatedG1Pubkey), key) == Ok(totalAggregatedG1Pubkey)
      ensures r.Err? ==> ApkMinus(suite, old(totalAggregatedG1Pubkey), key) == Err(r.error)
    {
      var point := suite.decompressG1(key);
      if point.None? {
        return Err(InvalidG1Pubkey);
      }
      var total := suite.decompressG1(totalAggregatedG1Pubkey);
      if total.None? {
        return Err(G1PointDecompressionError);
      }
      totalAggregatedG1Pubkey := suite.compressG1(Add(total.value, Neg(point.value)));
      r := Ok(());
    }

    method UpdateG1OperatorPubkey(suite: Suite, key: Bytes32, operator: Pubkey) returns (r: Result<(), NcnError>)
      requires Valid()
      modifies this, operatorSnapshots
      ensures operatorSnapshots == old(operatorSnapshots) && Valid()
      ensures r.Ok? ==> KeyRotated(suite, old(View()), key, operator) == Ok(View())
      ensures r.Err? ==> KeyRotated(suite, old(View()), key, operator) == Err(r.error)
    {
      if operatorsRegistered == 0 {
        return Err(NoOperatorsRegistered);
      } else if operatorsRegistered == 1 {
        totalAggregatedG1Pubkey := key;
        var at := FindOperatorSnapshot(operator);
        if at.Some? {
          operatorSnapshots[at.value] := operatorSnapshots[at.value].(g1Pubkey := key);
        }
      } else if operatorsRegistered < MAX_OPERATORS {
        var at := FindOperatorSnapshot(operator);
        if at.Some? {
          var subtracted := SubtractG1PubkeyFromTotalAgg(suite, operatorSnapshots[at.value].g1Pubkey);
          if subtracted.Err? {
            return subtracted;
          }
          operatorSnapshots[at.value] := operatorSnapshots[at.value].(g1Pubkey := key);
          var added := AddG1PubkeyToTotalAgg(suite, key);
          if added.Err? {
            return added;
          }
        }
      } else {
        return Err(InvalidOperatorCount);
      }
      r := BumpGeneration();
    }

    method AddOperatorSnapshot(op: OperatorSnapshot, slot: U64) returns (r: Result<(), NcnError>)
      requires Valid()
      modifies this, operatorSnapshots
      ensures operatorSnapshots == old(operatorSnapshots) && Valid()
      ensures r.Ok? ==> OperatorAdded(old(View()), op, slot) == Ok(View())
      ensures r.Err? ==> OperatorAdded(old(View()), op, slot) == Err(r.error)
    {
      var index := op.ncnOperatorIndex;
      if index >= MAX_OPERATORS {
        return Err(TooManyVaultOperatorDelegations);
      }
      if operatorSnapshots[index].IsLive() {
        return Err(DuplicateVaultOperatorDelegation);
      }
      operatorSnapshots[index] := op;
      if operatorsRegistered == U64_MAX {
        return Err(ArithmeticOverflow);
      }
      operatorsRegistered := operatorsRegistered + 1;
      lastSnapshotSlot := slot;
      r := BumpGeneration();
    }

    method RemoveOperatorSnapshot(suite: Suite, operator: Pubkey) returns (r: Result<nat, NcnError>)
      requires Valid()
      modifies this, operatorSnapshots
      ensures operatorSnapshots == old(operatorSnapshots) && Valid()
      ensures r.Ok? ==> OperatorRemoved(suite, old(View()), operator) == Ok((View(), r.value))
      ensures r.Err? ==> OperatorRemoved(suite, old(View()), operator) == Err(r.error)
    {
      var at := FindOperatorSnapshot(operator);
      if at.None? {
        return Err(OperatorIsNotInSnapshot);
      }
      var index, key := operatorSnapshots[at.value].ncnOperatorIndex, operatorSnapshots[at.value].g1Pubkey;
      if key != ZERO32 {
        var subtracted := SubtractG1PubkeyFromTotalAgg(suite, key);
        if subtracted.Err? {
          return Err(subtracted.error);
        }
      }
      operatorSnapshots[index] := EmptyOperator();
      var bumped := BumpGeneration();
      if bumped.Err? {
        return Err(bumped.error);
      }
      r := Ok(index);
    }

    /** Writing an entry back under its own index keeps the slots well formed. */
    method UpdateOperatorSnapshot(index: nat, op: OperatorSnapshot)
      requires Valid() && index < MAX_OPERATORS
      modifies operatorSnapshots
      ensures (op.IsLive() ==> op.ncnOperatorIndex == index) <==> Valid()
      ensures View() == old(View()).(slots := old(View()).slots[index := op])
    {
      operatorSnapshots[index] := op;
    }
  }
}
